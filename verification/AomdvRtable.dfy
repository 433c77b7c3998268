/** A route entry as the object that the handlers hold references to, with its own linked list of paths:
    aomdv/aomdv_rtable.cc, and the parts of aomdv/aomdv.cc that change one entry.  The table is AODV's. */
module AomdvRtable {
  import opened RoutingBase
  import opened BsdList
  import opened AomdvPaths
  import opened AomdvNode
  import opened AomdvProps

  lemma Found(ps: seq<Path>, nexthop: Addr, lasthop: Addr, k: nat)
    requires k <= |ps| && (k < |ps| ==> ps[k].nexthop == nexthop && ps[k].lasthop == lasthop)
    requires forall j | 0 <= j < k :: ps[j].nexthop != nexthop || ps[j].lasthop != lasthop
    ensures Find(ps, nexthop, lasthop) == k
  {
  }

  lemma FoundLast(ps: seq<Path>, lasthop: Addr, k: nat)
    requires k <= |ps| && (k < |ps| ==> ps[k].lasthop == lasthop) && forall j | 0 <= j < k :: ps[j].lasthop != lasthop
    ensures FindLast(ps, lasthop) == k
  {
  }

  class RtEntry {
    const dst: Addr
    const pathList: List<Path>
    var seqno: nat
    var adv: Hops
    var numPaths: int
    var highest: nat
    var error: bool
    var lastHops: Hops
    var expire: real
    var up: bool
    var reqTimeout: real
    var reqCnt: nat
    var reqLastTtl: int

    ghost function Repr(): set<object>
      reads pathList
    {
      {this, pathList} + pathList.footprint
    }

    ghost predicate Valid()
      reads this, Repr()
    {
      pathList.Valid() && this !in pathList.footprint
    }

    ghost function Value(): Entry
      requires Valid()
      reads this, Repr()
    {
      Entry(seqno, adv, pathList.Values(), numPaths, highest, error, lastHops, expire, up, reqTimeout, reqCnt, reqLastTtl)
    }

    /** The fields, as the specification names them. */
    lemma Shown()
      requires Valid()
      ensures var e := Value();
              && e.seqno == seqno && e.adv == adv && e.numPaths == numPaths && e.highest == highest && e.error == error
              && e.lastHops == lastHops && e.expire == expire && e.up == up && e.reqTimeout == reqTimeout
              && e.reqCnt == reqCnt && e.reqLastTtl == reqLastTtl && e.paths == pathList.Values()
    {
    }

    constructor (dst: Addr)
      ensures Valid() && fresh(Repr()) && Value() == FRESH_ENTRY && this.dst == dst
    {
      this.dst := dst;
      pathList := new List<Path>();
      seqno, adv, numPaths, highest, error, lastHops := 0, Inf, 0, 0, false, Inf;
      expire, up := 0.0, false;
      reqTimeout, reqCnt, reqLastTtl := 0.0, 0, 0;
    }

    // ---------- the path list ----------

    method LastPath() returns (p: Link<Path>)
      requires Valid() && pathList.first != null
      ensures pathList.links != [] && p == pathList.links[|pathList.links| - 1]
    {
      pathList.Starts();
      ghost var k := 0;
      p := pathList.first;
      pathList.Next(0);
      while p.next != null
        invariant k < |pathList.links| && p == pathList.links[k] && p.next == At(pathList.links, k + 1)
        decreases |pathList.links| - k
      {
        p, k := p.next, k + 1;
        pathList.Next(k);
      }
    }

    /** A new path at the end of the list, which is walked to its last link. */
    method PathInsert(nexthop: Addr, hopcount: nat, expire: real, lasthop: Addr) returns (path: Link<Path>)
      requires Valid()
      modifies Repr()
      ensures Valid() && fresh(Repr() - old(Repr()))
      ensures Value() == AomdvNode.PathInsert(old(Value()), Path(nexthop, hopcount, expire, lasthop))
    {
      pathList.Starts();
      if pathList.first == null {
        path := pathList.InsertHead(Path(nexthop, hopcount, expire, lasthop));
      } else {
        var p := LastPath();
        path := pathList.InsertAfter(p, Path(nexthop, hopcount, expire, lasthop));
      }
      numPaths := numPaths + 1;
    }

    method PathLookup(id: Addr) returns (path: Link?<Path>, ghost k: nat)
      requires Valid()
      ensures k <= |pathList.links| == |Value().paths| && path == At(pathList.links, k)
      ensures forall j | 0 <= j < k :: Value().paths[j].nexthop != id
      ensures path != null ==> Value().paths[k].nexthop == id
      ensures path == null <==> !HasNext(Value().paths, id)
    {
      pathList.Starts();
      path, k := pathList.first, 0;
      while path != null && path.elem.nexthop != id
        invariant k <= |pathList.links| && path == At(pathList.links, k)
        invariant forall j | 0 <= j < k :: pathList.Values()[j].nexthop != id
        decreases |pathList.links| - k
      {
        pathList.Next(k);
        path, k := path.next, k + 1;
      }
    }

    method DisjointPathLookup(nexthop: Addr, lasthop: Addr) returns (path: Link?<Path>, ghost k: nat)
      requires Valid()
      ensures k == Find(Value().paths, nexthop, lasthop) && path == At(pathList.links, k)
      ensures path == At(pathList.links, Find(Value().paths, nexthop, lasthop))
      ensures |pathList.links| == |Value().paths| && (path != null ==> path.elem == Value().paths[k])
    {
      pathList.Starts();
      path, k := pathList.first, 0;
      while path != null && !(path.elem.nexthop == nexthop && path.elem.lasthop == lasthop)
        invariant k <= |pathList.links| && path == At(pathList.links, k)
        invariant forall j | 0 <= j < k :: pathList.Values()[j].nexthop != nexthop || pathList.Values()[j].lasthop != lasthop
        decreases |pathList.links| - k
      {
        pathList.Next(k);
        path, k := path.next, k + 1;
      }
      Found(pathList.Values(), nexthop, lasthop, k);
    }

    method NewDisjointPath(nexthop: Addr, lasthop: Addr) returns (isNew: bool)
      requires Valid()
      ensures isNew <==> NewDisjoint(Value().paths, nexthop, lasthop)
    {
      pathList.Starts();
      var path, k := pathList.first, 0;
      while path != null
        invariant k <= |pathList.links| && path == At(pathList.links, k)
        invariant forall j | 0 <= j < k :: pathList.Values()[j].nexthop != nexthop && pathList.Values()[j].lasthop != lasthop
        decreases |pathList.links| - k
      {
        if path.elem.nexthop == nexthop || path.elem.lasthop == lasthop {
          assert Value().paths[k] == path.elem;
          return false;
        }
        pathList.Next(k);
        path, k := path.next, k + 1;
      }
      isNew := true;
    }

    method PathLookupLasthop(id: Addr) returns (path: Link?<Path>, ghost k: nat)
      requires Valid()
      ensures k == FindLast(Value().paths, id) && path == At(pathList.links, k)
      ensures path == At(pathList.links, FindLast(Value().paths, id))
      ensures |pathList.links| == |Value().paths| && (path != null ==> path.elem == Value().paths[k])
    {
      pathList.Starts();
      path, k := pathList.first, 0;
      while path != null && path.elem.lasthop != id
        invariant k <= |pathList.links| && path == At(pathList.links, k)
        invariant forall j | 0 <= j < k :: pathList.Values()[j].lasthop != id
        decreases |pathList.links| - k
      {
        pathList.Next(k);
        path, k := path.next, k + 1;
      }
      FoundLast(pathList.Values(), id, k);
    }

    /** Unlinks the first path over this next hop. */
    method PathDelete(id: Addr)
      requires Valid()
      modifies Repr()
      ensures Valid() && Repr() == old(Repr()) && Value() == AomdvNode.PathDelete(old(Value()), id)
    {
      var path, k := PathLookup(id);
      if path != null {
        WithoutCuts(pathList.Values(), k, id);
        pathList.Remove(path, k);
        numPaths := numPaths - 1;
      } else {
        WithoutNone(pathList.Values(), id);
      }
    }

    method PathDeleteAll()
      requires Valid()
      modifies Repr()
      ensures Valid() && Repr() == old(Repr()) && Value() == old(Value()).(paths := [], numPaths := 0)
    {
      pathList.Starts();
      while pathList.first != null
        invariant Valid() && Repr() == old(Repr()) && Value() == old(Value()).(paths := pathList.Values())
        decreases |pathList.links|
      {
        pathList.Starts();
        pathList.Remove(pathList.first, 0);
      }
      pathList.Starts();
      numPaths := 0;
    }

    method PathEmpty() returns (empty: bool)
      requires Valid() && numPaths == |Value().paths|
      ensures empty <==> Value().paths == []
    {
      pathList.Starts();
      if pathList.first != null {
        assert numPaths > 0;
        return false;
      }
      assert numPaths == 0;
      return true;
    }

    /** The path we got first. */
    method PathFind() returns (path: Link?<Path>)
      requires Valid()
      ensures path == At(pathList.links, 0) && (path == null <==> Value().paths == [])
      ensures path != null ==> pathList.links != [] && path.elem == Value().paths[0]
    {
      pathList.Starts();
      path := pathList.first;
    }

    method PathGetMaxHopcount() returns (m: Hops)
      requires Valid()
      ensures m == MaxHopcount(Value().paths)
    {
      pathList.Starts();
      var max, path, k := 0, pathList.first, 0;
      while path != null
        invariant k <= |pathList.links| && path == At(pathList.links, k)
        invariant forall j | 0 <= j < k :: pathList.Values()[j].hopcount <= max
        invariant max == 0 || exists j | 0 <= j < k :: pathList.Values()[j].hopcount == max
        decreases |pathList.links| - k
      {
        assert pathList.Values()[k] == path.elem;
        if path.elem.hopcount > max {
          max := path.elem.hopcount;
        }
        pathList.Next(k);
        path, k := path.next, k + 1;
      }
      m := if max == 0 then Inf else Fin(max);
    }

    method PathGetMinHopcount() returns (m: Hops)
      requires Valid()
      ensures m == MinHopcount(Value().paths)
    {
      pathList.Starts();
      m := Inf;
      var path, k := pathList.first, 0;
      while path != null
        invariant k <= |pathList.links| && path == At(pathList.links, k)
        invariant forall j | 0 <= j < k :: m.Fin? && m.n <= pathList.Values()[j].hopcount
        invariant m.Fin? ==> exists j | 0 <= j < k :: pathList.Values()[j].hopcount == m.n
        decreases |pathList.links| - k
      {
        assert pathList.Values()[k] == path.elem;
        if Fin(path.elem.hopcount).Below(m) {
          m := Fin(path.elem.hopcount);
        }
        pathList.Next(k);
        path, k := path.next, k + 1;
      }
    }

    /** Unlinks one expired path at a time, starting over after each, until a pass finds none. */
    method PathPurge(now: real)
      requires Valid()
      modifies Repr()
      ensures Valid() && Repr() == old(Repr())
      ensures var e := old(Value());
              var live := Unexpired(e.paths, now);
              Value() == e.(paths := live, numPaths := e.numPaths - |e.paths| + |live|)
    {
      hide Unexpired, List.Valid;
      var again := true;
      while again
        invariant Valid() && Repr() == old(Repr())
        invariant Value() == old(Value()).(paths := pathList.Values(), numPaths := old(numPaths) - old(|pathList.Values()|) + |pathList.Values()|)
        invariant Unexpired(pathList.Values(), now) == Unexpired(old(pathList.Values()), now)
        invariant !again ==> forall j | 0 <= j < |pathList.Values()| :: pathList.Values()[j].expire >= now
        decreases |pathList.links|, again
      {
        again := false;
        var path, k := FirstExpired(now);
        if path != null {
          again := true;
          UnexpiredCuts(pathList.Values(), k, now);
          pathList.Remove(path, k);
          numPaths := numPaths - 1;
        }
      }
      AllUnexpired(pathList.Values(), now);
    }

    /** One pass of path_purge. */
    method FirstExpired(now: real) returns (path: Link?<Path>, ghost k: nat)
      requires Valid()
      ensures k <= |pathList.links| == |pathList.Values()| && path == At(pathList.links, k)
      ensures forall j | 0 <= j < k :: pathList.Values()[j].expire >= now
      ensures path != null ==> pathList.Values()[k].expire < now
    {
      pathList.Starts();
      path, k := pathList.first, 0;
      while path != null && path.elem.expire >= now
        invariant k <= |pathList.links| && path == At(pathList.links, k)
        invariant forall j | 0 <= j < k :: pathList.Values()[j].expire >= now
        decreases |pathList.links| - k
      {
        pathList.Next(k);
        path, k := path.next, k + 1;
      }
    }

    // ---------- use and searches ----------

    /** A packet leaves over the path we got first, which lives on. */
    method UseFirst(until: real)
      requires Valid() && Value().paths != []
      modifies Repr()
      ensures Valid() && Repr() == old(Repr()) && Value() == FirstUsed(old(Value()), until)
    {
      var path := PathFind();
      pathList.Set(path, 0, path.elem.(expire := until));
    }

    /** forward() for a data packet, `mine` when this node is its source. */
    method Forward(mine: bool, now: real)
      requires Valid() && up && Value().paths != []
      modifies Repr()
      ensures Valid() && Repr() == old(Repr()) && Value() == Used(old(Value()), mine, now)
    {
      assert up;
      UseFirst(now + ACTIVE_ROUTE_TIMEOUT);
      if !mine {
        error := true;
      }
    }

    /** Packets the send buffer holds for this destination, all of them this node's own, leave over the route. */
    method Drain(env: Env)
      requires Valid() && Value().paths != []
      modifies Repr()
      ensures Valid() && Repr() == old(Repr()) && Value() == Drained(old(Value()), dst, env)
    {
      if dst in env.waiting {
        UseFirst(env.now + ACTIVE_ROUTE_TIMEOUT);
      }
    }

    /** Once a route is up, its search is over and the buffered packets leave. */
    method Settle(env: Env)
      requires Valid() && (up ==> Value().paths != [])
      modifies Repr()
      ensures Valid() && Repr() == old(Repr()) && Value() == Settled(old(Value()), dst, env)
    {
      if up {
        reqTimeout, reqLastTtl, reqCnt := 0.0, 0, 0;
        Drain(env);
      }
    }

    /** The size of the next search ring, and when the one after it may start. */
    method NextRing(env: Env) returns (ttl: int)
      requires Valid()
      modifies this
      ensures Valid() && Repr() == old(Repr())
      ensures Value() == NextSearch(old(Value()), dst, env) && ttl == reqLastTtl && seqno == old(seqno)
    {
      hide SearchTimeout;
      if reqLastTtl < lastHops.Num() {
        reqLastTtl := lastHops.Num();
      }
      if reqLastTtl == 0 {
        ttl := TTL_START;
      } else if reqLastTtl < TTL_THRESHOLD {
        ttl := reqLastTtl + TTL_INCREMENT;
      } else {
        ttl := NETWORK_DIAMETER;
        reqCnt := reqCnt + 1;
      }
      reqLastTtl := ttl;
      reqTimeout := RingTimeout(ttl, reqCnt, PerHopTime(dst, env), env.now, MAX_RREQ_TIMEOUT);
      expire := 0.0;
    }

    /** After too many searches the route rests for the longest time. */
    method Rest(now: real)
      requires Valid()
      modifies this
      ensures Valid() && Repr() == old(Repr())
      ensures Value() == old(Value()).(reqTimeout := now + MAX_RREQ_TIMEOUT, reqCnt := 0)
    {
      reqTimeout := now + MAX_RREQ_TIMEOUT;
      reqCnt := 0;
    }

    /** Route advertisement: the hop count told is fixed the first time it is told.  Yields the path told of. */
    method Advertise() returns (path: Link<Path>)
      requires Valid() && Value().paths != []
      modifies this
      ensures Valid() && Repr() == old(Repr()) && Value() == Advertised(old(Value()))
      ensures Value().paths == old(Value()).paths && path.elem == Value().paths[0]
    {
      if adv.Inf? {
        adv := PathGetMaxHopcount();
      }
      path := PathFind();
    }

    /** Another node is told of this route, and will have to be told if it is lost. */
    method Tell() returns (path: Link<Path>)
      requires Valid() && Value().paths != []
      modifies this
      ensures Valid() && Repr() == old(Repr()) && Value() == Advertised(old(Value())).(error := true)
      ensures Value().paths == old(Value()).paths && path.elem == Value().paths[0]
    {
      path := Advertise();
      error := true;
    }

    // ---------- new paths ----------

    /** A newer number replaces every path by the one offered. */
    method Renew(seqno: nat, nexthop: Addr, hopcount: nat, expire: real, lasthop: Addr) returns (path: Link<Path>)
      requires Valid()
      modifies Repr()
      ensures Valid() && fresh(Repr() - old(Repr()))
      ensures Value() == Renewed(old(Value()), seqno, Path(nexthop, hopcount, expire, lasthop))
    {
      hide List.Valid, List.Values, MaxHopcount;
      this.seqno := seqno;
      adv := Inf;
      PathDeleteAll();
      up := true;
      path := PathInsert(nexthop, hopcount, expire, lasthop);
      assert Value().paths == [Path(nexthop, hopcount, expire, lasthop)];
      lastHops := PathGetMaxHopcount();
    }

    method Append(nexthop: Addr, hopcount: nat, expire: real, lasthop: Addr) returns (path: Link<Path>)
      requires Valid()
      modifies Repr()
      ensures Valid() && fresh(Repr() - old(Repr()))
      ensures Value() == Added(old(Value()), Path(nexthop, hopcount, expire, lasthop))
    {
      path := PathInsert(nexthop, hopcount, expire, lasthop);
      lastHops := PathGetMaxHopcount();
    }

    /** A known path lives on at least until then. */
    method Prolong(path: Link<Path>, ghost k: nat, until: real)
      requires Valid() && k < |pathList.links| && path == pathList.links[k] && |pathList.links| == |Value().paths|
      modifies Repr()
      ensures Valid() && Repr() == old(Repr()) && Value() == Refreshed(old(Value()), k, until)
    {
      pathList.Starts();
      if path.elem.expire < until {
        pathList.Set(path, k, path.elem.(expire := until));
      } else {
        assert Value().paths == Value().paths[k := Value().paths[k]];
      }
    }

    /** A disjoint path is added if there is room for it and it is not too long; handling goes on if it is not
        too long for the paths there are then. */
    method AddAlternate(nexthop: Addr, hops: nat, expire: real, lasthop: Addr, maxPaths: int, lenDiff: int)
      returns (goOn: bool, path: Link?<Path>)
      requires Valid()
      modifies Repr()
      ensures Valid() && fresh(Repr() - old(Repr()))
      ensures path != null <==> old(numPaths) < maxPaths && hops - MinHopcount(old(Value()).paths).Num() <= lenDiff
      ensures Value() == if path != null then Added(old(Value()), Path(nexthop, hops, expire, lasthop)) else old(Value())
      ensures goOn <==> hops - MinHopcount(Value().paths).Num() <= lenDiff
    {
      hide List.Valid, List.Values, MinHopcount, MaxHopcount;
      path := null;
      var min := PathGetMinHopcount();
      if numPaths < maxPaths && hops - min.Num() <= lenDiff {
        path := Append(nexthop, hops, expire, lasthop);
      }
      min := PathGetMinHopcount();
      goOn := hops - min.Num() <= lenDiff;
    }

    /** The reverse route part of recvRequest: whether handling goes on, and the reverse path in hand if any.
        `n` is the node this entry belongs to. */
    method TakeReverse(m: Msg, firstHop: Addr, env: Env, index: Addr, maxPaths: int, lenDiff: int, ghost n: Node)
      returns (goOn: bool, reversePath: Link?<Path>)
      requires Valid() && m.Rreq? && MsgOk(m) && n.index == index && n.maxPaths == maxPaths && n.lenDiff == lenDiff
      requires EntryOk(Value(), maxPaths) && LengthsAgree(Value(), m.srcSeqno, m.sender, m.hopCount + 1)
      modifies Repr()
      ensures Valid() && fresh(Repr() - old(Repr()))
      ensures var r := UpdateReverse(n, old(Value()), m, firstHop, env);
              Value() == r.entry && goOn == r.goOn && (reversePath != null <==> r.inHand)
      ensures (goOn ==> up) && (up ==> Value().paths != [] && seqno % 2 == 0)
    {
      hide List.Valid, List.Values, Find, FindLast, MaxHopcount, MinHopcount, NewDisjoint, Disjoint;
      var hops, life := m.hopCount + 1, env.now + REV_ROUTE_LIFE;
      reversePath := null;
      if seqno < m.srcSeqno {
        reversePath := Renew(m.srcSeqno, m.sender, hops, life, firstHop);
        return true, reversePath;
      }
      if !(seqno == m.srcSeqno && Fin(m.hopCount).Below(adv)) {
        return false, null;
      }
      assert up;
      var path, k := DisjointPathLookup(m.sender, firstHop);
      if path != null {
        assert path.elem.hopcount == hops;
        Prolong(path, k, life);
        return true, path;
      }
      var isNew := NewDisjointPath(m.sender, firstHop);
      if isNew {
        goOn, reversePath := AddAlternate(m.sender, hops, life, firstHop, maxPaths, lenDiff);
        return;
      }
      var erp, j := PathLookupLasthop(firstHop);
      goOn := !(m.dst == index && (erp == null || hops > erp.elem.hopcount));
    }

    /** The forward route part of recvReply: whether handling goes on. */
    method TakeForward(m: Msg, env: Env, maxPaths: int, lenDiff: int, ghost n: Node) returns (goOn: bool)
      requires Valid() && m.Rrep? && MsgOk(m) && n.maxPaths == maxPaths && n.lenDiff == lenDiff
      requires EntryOk(Value(), maxPaths) && LengthsAgree(Value(), m.dstSeqno, m.sender, m.hopCount + 1)
      modifies Repr()
      ensures Valid() && fresh(Repr() - old(Repr()))
      ensures var f := UpdateForward(n, old(Value()), m, env); Value() == f.entry && goOn == f.goOn
      ensures (goOn ==> up) && (up ==> Value().paths != [] && seqno % 2 == 0)
    {
      hide List.Valid, List.Values, Find, MaxHopcount, MinHopcount, NewDisjoint, Disjoint;
      var hops, life := m.hopCount + 1, env.now + m.lifetime;
      if seqno < m.dstSeqno {
        var forwardPath := Renew(m.dstSeqno, m.sender, hops, life, m.firstHop);
        return true;
      }
      if !(seqno == m.dstSeqno && Fin(m.hopCount).Below(adv)) {
        return false;
      }
      assert up;
      var path, k := DisjointPathLookup(m.sender, m.firstHop);
      if path != null {
        assert path.elem.hopcount == hops;
        Prolong(path, k, life);
        return true;
      }
      var isNew := NewDisjointPath(m.sender, m.firstHop);
      var min := PathGetMinHopcount();
      if isNew && numPaths < maxPaths && hops - min.Num() <= lenDiff {
        path := Append(m.sender, hops, life, m.firstHop);
        return true;
      }
      return false;
    }

    /** The reverse route brought up to date and, if handling goes on, settled. */
    method LearnReverse(m: Msg, firstHop: Addr, env: Env, index: Addr, maxPaths: int, lenDiff: int, ghost n: Node)
      returns (goOn: bool, reversePath: Link?<Path>)
      requires Valid() && m.Rreq? && MsgOk(m) && n.index == index && n.maxPaths == maxPaths && n.lenDiff == lenDiff
      requires EntryOk(Value(), maxPaths) && LengthsAgree(Value(), m.srcSeqno, m.sender, m.hopCount + 1)
      modifies Repr()
      ensures Valid() && fresh(Repr() - old(Repr()))
      ensures var r := UpdateReverse(n, old(Value()), m, firstHop, env);
              && goOn == r.goOn && (reversePath != null <==> r.inHand)
              && Value() == if goOn then Settled(r.entry, dst, env) else r.entry
      ensures (goOn ==> Value().up) && (Value().up ==> Value().paths != [] && Value().seqno % 2 == 0)
    {
      hide Valid, UpdateReverse, EntryOk, LengthsAgree, MsgOk, List.Valid, Repr;
      goOn, reversePath := TakeReverse(m, firstHop, env, index, maxPaths, lenDiff, n);
      Shown();
      if goOn {
        Settle(env);
        Shown();
      }
    }

    /** The forward route brought up to date and, if handling goes on, settled. */
    method LearnForward(m: Msg, env: Env, maxPaths: int, lenDiff: int, ghost n: Node) returns (goOn: bool)
      requires Valid() && m.Rrep? && MsgOk(m) && n.maxPaths == maxPaths && n.lenDiff == lenDiff
      requires EntryOk(Value(), maxPaths) && LengthsAgree(Value(), m.dstSeqno, m.sender, m.hopCount + 1)
      modifies Repr()
      ensures Valid() && fresh(Repr() - old(Repr()))
      ensures var f := UpdateForward(n, old(Value()), m, env);
              goOn == f.goOn && Value() == if goOn then Settled(f.entry, dst, env) else f.entry
      ensures (goOn ==> Value().up) && (Value().up ==> Value().paths != [] && Value().seqno % 2 == 0)
    {
      hide Valid, UpdateForward, EntryOk, LengthsAgree, MsgOk, List.Valid, Repr;
      goOn := TakeForward(m, env, maxPaths, lenDiff, n);
      Shown();
      if goOn {
        Settle(env);
        Shown();
      }
    }

    // ---------- down ----------

    method Down()
      requires Valid()
      modifies Repr()
      ensures Valid() && Repr() == old(Repr()) && Value() == RtDown(old(Value()))
    {
      if !up {
        return;
      }
      up, adv := false, Inf;
      PathDeleteAll();
      expire := 0.0;
    }

    /** The path over a neighbour that reports the destination lost goes; without another the route goes down
        under the highest number heard.  Tells whether anyone must be told. */
    method Lose(sender: Addr, reported: nat) returns (tell: bool)
      requires Valid() && up && seqno % 2 == 0 && numPaths == |Value().paths| && HasNext(Value().paths, sender)
      modifies Repr()
      ensures Valid() && Repr() == old(Repr())
      ensures var e := AomdvNode.PathDelete(old(Value()), sender);
              var e := e.(highest := Max(e.highest, reported));
              var down := RtDown(e.(seqno := e.highest));
              && tell == (e.paths == [] && down.error)
              && Value() == if e.paths != [] then e else down.(error := false)
    {
      assert seqno % 2 == 0;
      tell := false;
      WithoutKeeps(Value().paths, sender);
      PathDelete(sender);
      if highest < reported {
        highest := reported;
      }
      var empty := PathEmpty();
      if empty {
        seqno := highest;
        Down();
        if error {
          tell := true;
          error := false;
        }
      }
    }

    /** The path over a failed link goes; without another the route goes down under a new number. */
    method Fail(id: Addr) returns (tell: bool)
      requires Valid() && up && seqno % 2 == 0 && numPaths == |Value().paths| && HasNext(Value().paths, id)
      modifies Repr()
      ensures Valid() && Repr() == old(Repr())
      ensures var e := AomdvNode.PathDelete(old(Value()), id);
              var e' := e.(seqno := Max(e.seqno + 1, e.highest));
              && tell == (e.paths == [] && e.error)
              && Value() == if e.paths != [] then e else RtDown(e'.(error := false))
    {
      assert seqno % 2 == 0;
      tell := false;
      WithoutKeeps(Value().paths, id);
      PathDelete(id);
      var empty := PathEmpty();
      if empty {
        seqno := seqno + 1;
        if seqno < highest {
          seqno := highest;
        }
        if error {
          tell := true;
          error := false;
        }
        Down();
      }
    }

    /** Expired paths go; without another the route goes down under a new, odd number. */
    method Expire(now: real)
      requires Valid() && numPaths == |Value().paths|
      modifies Repr()
      ensures Valid() && Repr() == old(Repr())
      ensures var e := old(Value());
              var live := Unexpired(e.paths, now);
              var e := e.(paths := live, numPaths := |live|);
              var s := Max(e.seqno + 1, e.highest);
              Value() == if e.paths != [] then e else RtDown(e.(seqno := if s % 2 == 0 then s + 1 else s))
    {
      hide List.Valid, List.Values, Unexpired;
      PathPurge(now);
      var empty := PathEmpty();
      if empty {
        seqno := seqno + 1;
        if seqno < highest {
          seqno := highest;
        }
        if seqno % 2 == 0 {
          seqno := seqno + 1;
        }
        Down();
      }
    }
  }

  // ---------- the table ----------

  function DestsOf(es: seq<RtEntry>): seq<Addr> {
    seq(|es|, i requires 0 <= i < |es| => es[i].dst)
  }

  /** No two entries are for one destination. */
  ghost predicate OneEach(es: seq<RtEntry>) {
    forall i, j | 0 <= i < j < |es| :: es[i].dst != es[j].dst
  }

  ghost function EntryFor(es: seq<RtEntry>, d: Addr): (e: RtEntry)
    requires d in DestsOf(es)
    ensures e in es && e.dst == d
  {
    var i :| 0 <= i < |es| && DestsOf(es)[i] == d;
    es[i]
  }

  lemma OneFor(es: seq<RtEntry>, e: RtEntry)
    requires OneEach(es) && e in es
    ensures e.dst in DestsOf(es) && EntryFor(es, e.dst) == e
  {
    var i :| 0 <= i < |es| && es[i] == e;
    assert DestsOf(es)[i] == e.dst;
  }

  lemma OneMore(es: seq<RtEntry>, rt: RtEntry)
    requires OneEach(es) && rt.dst !in DestsOf(es)
    ensures OneEach([rt] + es) && DestsOf([rt] + es) == [rt.dst] + DestsOf(es)
    ensures forall d | d in DestsOf(es) :: d in DestsOf([rt] + es) && EntryFor([rt] + es, d) == EntryFor(es, d)
  {
    var fs := [rt] + es;
    assert DestsOf(fs) == [rt.dst] + DestsOf(es);
    forall i, j | 0 <= i < j < |fs| ensures fs[i].dst != fs[j].dst {
      if i == 0 { assert fs[j].dst == DestsOf(es)[j - 1]; }
    }
    forall d | d in DestsOf(es) ensures d in DestsOf(fs) && EntryFor(fs, d) == EntryFor(es, d) {
      assert EntryFor(es, d) in fs;
      OneFor(fs, EntryFor(es, d));
    }
  }

  class RtTable {
    const list: List<RtEntry>
    ghost var footprint: set<object>

    ghost function Entries(): seq<RtEntry>
      reads list, list.links
    {
      list.Values()
    }

    ghost predicate ListOk()
      reads this, footprint
    {
      {this, list} <= footprint && list.footprint <= footprint && list.Valid() && this !in list.footprint
    }

    /** An entry's objects are the table's, and are not those of the list itself. */
    ghost predicate Owns(e: RtEntry)
      requires ListOk()
      reads this, footprint
    {
      && {e, e.pathList} <= footprint && e.Repr() <= footprint && e.Valid()
      && e.Repr() !! {this, list} + list.footprint
    }

    ghost predicate Valid()
      reads this, footprint
    {
      && ListOk() && OneEach(Entries())
      && (forall e | e in Entries() :: Owns(e))
      && forall e, f | e in Entries() && f in Entries() && e != f :: e.Repr() !! f.Repr()
    }

    ghost function Table(): map<Addr, Entry>
      requires Valid()
      reads this, footprint
    {
      map d | d in DestsOf(Entries()) :: EntryFor(Entries(), d).Value()
    }

    ghost function Dests(): seq<Addr>
      requires Valid()
      reads this, footprint
    {
      DestsOf(Entries())
    }

    constructor ()
      ensures Valid() && fresh(footprint) && Entries() == [] && Table() == map[] && Dests() == []
    {
      list := new List<RtEntry>();
      new;
      footprint := {this, list};
    }

    /** What a walk over the table finds at position `k`. */
    lemma Walk(k: nat)
      requires Valid() && k <= |list.links|
      ensures |Dests()| == |Entries()| == |list.links| && list.first == At(list.links, 0)
      ensures k < |list.links| ==>
                var e := list.links[k].elem;
                e in Entries() && e.dst == Dests()[k] && list.links[k].next == At(list.links, k + 1)
    {
      list.Starts();
      if k < |list.links| {
        list.Next(k);
        assert Entries()[k] == list.links[k].elem;
      }
    }

    /** A reference taken from the table. */
    lemma Here(rt: RtEntry)
      requires Valid() && rt in Entries()
      ensures rt.dst in Table() && Table()[rt.dst] == rt.Value() && Owns(rt)
    {
      OneFor(Entries(), rt);
    }

    method Lookup(d: Addr) returns (rt: RtEntry?)
      requires Valid()
      ensures rt == null <==> d !in Table()
      ensures rt != null ==> rt in Entries() && rt.dst == d && d in Table() && Table()[d] == rt.Value() && Owns(rt)
    {
      list.Starts();
      var l, k := list.first, 0;
      while l != null && l.elem.dst != d
        invariant k <= |list.links| && l == At(list.links, k)
        invariant forall j | 0 <= j < k :: DestsOf(Entries())[j] != d
        decreases |list.links| - k
      {
        list.Next(k);
        l, k := l.next, k + 1;
      }
      if l == null {
        return null;
      }
      assert Entries()[k] == l.elem;
      Here(l.elem);
      rt := l.elem;
    }

    method Add(d: Addr) returns (rt: RtEntry)
      requires Valid() && d !in Table()
      modifies this, list, list.footprint
      ensures Valid() && fresh(rt) && fresh(footprint - old(footprint)) && old(footprint) <= footprint
      ensures Entries() == [rt] + old(Entries()) && rt.dst == d && Owns(rt)
      ensures Table() == old(Table())[d := FRESH_ENTRY] && Dests() == [d] + old(Dests())
    {
      rt := new RtEntry(d);
      var l := list.InsertHead(rt);
      footprint := footprint + {l} + rt.Repr();
      Added(rt);
    }

    /** Of the table's objects only those of one entry have changed. */
    twostate predicate OnlyChanged(rt: RtEntry)
      requires old(Valid()) && rt in old(Entries())
      reads this, footprint, rt, rt.Repr()
    {
      && footprint == old(footprint) + rt.Repr()
      && (forall o | o in old(footprint) && o != this && o !in old(rt.Repr()) :: unchanged(o))
      && rt.Valid() && fresh(rt.Repr() - old(rt.Repr()))
    }

    twostate lemma OthersStay(rt: RtEntry)
      requires old(Valid()) && rt in old(Entries()) && OnlyChanged(rt) && Entries() == old(Entries())
      ensures forall e | e in Entries() && e != rt :: e.Valid() && e.Value() == old(e.Value())
    {
      forall e | e in Entries() && e != rt ensures e.Valid() && e.Value() == old(e.Value()) {
        assert old(Owns(e));
      }
    }

    twostate lemma StaysValid(rt: RtEntry)
      requires old(Valid()) && rt in old(Entries()) && OnlyChanged(rt)
      ensures Valid() && Entries() == old(Entries()) && Dests() == old(Dests())
    {
    }

    /** What the table holds after one entry, and nothing else, has been changed through a reference. */
    twostate lemma Touched(rt: RtEntry)
      requires old(Valid()) && rt in old(Entries()) && OnlyChanged(rt)
      ensures Valid() && Entries() == old(Entries()) && Dests() == old(Dests())
      ensures Table() == old(Table())[rt.dst := rt.Value()]
    {
      StaysValid(rt);
      OthersStay(rt);
      assert OneEach(Entries()) && Owns(rt);
      hide Valid, OnlyChanged;
      OneFor(Entries(), rt);
    }

    /** A new entry has been linked in at the head. */
    twostate predicate JustAdded(new rt: RtEntry)
      requires old(Valid())
      reads this, footprint, list, list.footprint, list.links, rt, rt.Repr()
    {
      && rt.dst !in old(DestsOf(Entries())) && rt.Valid() && fresh(rt.Repr()) && rt.Value() == FRESH_ENTRY
      && list.Valid() && this !in list.footprint && Entries() == [rt] + old(Entries()) && list.footprint !! rt.Repr()
      && footprint == old(footprint) + list.footprint + rt.Repr() && fresh(list.footprint - old(list.footprint))
      && forall o | o in old(footprint) && o != this && o != list && o !in old(list.footprint) :: unchanged(o)
    }

    twostate lemma OldStay(new rt: RtEntry)
      requires old(Valid()) && JustAdded(rt)
      ensures forall e | e in old(Entries()) :: e.Repr() == old(e.Repr()) && e.Valid() && e.Value() == old(e.Value())
    {
      forall e | e in old(Entries()) ensures e.Repr() == old(e.Repr()) && e.Valid() && e.Value() == old(e.Value()) {
        assert old(Owns(e));
      }
    }

    twostate lemma AddedOk(new rt: RtEntry)
      requires old(Valid()) && JustAdded(rt)
      ensures Valid()
    {
      OldStay(rt);
      OneMore(old(Entries()), rt);
      forall e | e in Entries() ensures Owns(e) {
        if e != rt { assert old(Owns(e)); }
      }
    }

    twostate lemma Added(new rt: RtEntry)
      requires old(Valid()) && JustAdded(rt)
      ensures Valid() && Table() == old(Table())[rt.dst := FRESH_ENTRY] && Dests() == [rt.dst] + old(Dests())
    {
      OldStay(rt);
      AddedOk(rt);
      OneMore(old(Entries()), rt);
      assert rt.Value() == FRESH_ENTRY && Entries() == [rt] + old(Entries());
      hide Valid, JustAdded;
      OneFor(Entries(), rt);
    }
  }
}
