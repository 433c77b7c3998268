/** One AOMDV node as a value, in the configuration that is shipped: node-disjoint paths, no link-layer
    detection.  One function per handler; AomdvAgent.Agent carries out the same handlers in place and
    AomdvNetwork runs many nodes together.  Sequence numbers and hop counts are naturals that do not wrap. */
module AomdvNode {
  import opened RoutingBase
  import opened AomdvPaths

  const MAX_RREQ_TIMEOUT := 1.0
  const MAX_SALVAGE_COUNT: nat := 10
  const NEW_NEIGHBOR_LIFE := 3.0  // HELLO_INTERVAL * ALLOWED_HELLO_LOSS
  const HELLO_LIFE := 4.0         // (1 + ALLOWED_HELLO_LOSS) * HELLO_INTERVAL

  /** A route entry: `adv` is the advertised hop count, `error` whether a lost route must be reported,
      `highest` the highest sequence number heard in a route error. */
  datatype Entry = Entry(
    seqno: nat, adv: Hops, paths: seq<Path>, numPaths: int, highest: nat, error: bool, lastHops: Hops,
    expire: real, up: bool, reqTimeout: real, reqCnt: nat, reqLastTtl: int)

  const FRESH_ENTRY := Entry(0, Inf, [], 0, 0, false, Inf, 0.0, false, 0.0, 0, 0)

  /** `count` is 1 once a reply of this discovery has passed through the node. */
  datatype BcastId = BcastId(src: Addr, id: nat, expire: real, count: nat)

  datatype Msg =
    | Rreq(sender: Addr, ttl: int, hopCount: nat, firstHop: Addr, bcastId: nat, dst: Addr, dstSeqno: nat,
           src: Addr, srcSeqno: nat)
    | Rrep(sender: Addr, to: Addr, ipDst: Addr, ttl: int, hopCount: nat, firstHop: Addr, bcastId: nat,
           dst: Addr, dstSeqno: nat, lifetime: real)
    | Rerr(sender: Addr, unreachable: seq<Unreachable>)
    | Hello(sender: Addr, seqno: nat)

  /** `maxPaths` and `lenDiff` are the two tuning parameters an agent is given. */
  datatype Node = Node(
    index: Addr, maxPaths: int, lenDiff: int, seqno: nat, bid: nat, table: map<Addr, Entry>, dests: seq<Addr>,
    bcache: seq<BcastId>, nbrs: seq<Neighbor>)

  /** A packet the interface queue still holds for a lost neighbour: its destination, whether this node is
      its source, whether it is data, and how often it has been salvaged. */
  datatype Stuck = Stuck(dst: Addr, mine: bool, data: bool, salvaged: nat)

  datatype Out = Out(node: Node, sent: seq<Msg>)

  datatype Losses = Losses(node: Node, lost: seq<Unreachable>)

  function Boot(index: Addr, maxPaths: int, lenDiff: int): Node {
    Node(index, maxPaths, lenDiff, 2, 1, map[], [], [], [])
  }

  // ---------- broadcast id cache ----------

  /** The position of the first cached record of a discovery, or the length of the cache. */
  function IdGet(cache: seq<BcastId>, src: Addr, id: nat): (k: nat)
    ensures k <= |cache|
    ensures k < |cache| ==> cache[k].src == src && cache[k].id == id
    ensures forall j | 0 <= j < k :: cache[j].src != src || cache[j].id != id
  {
    if cache == [] || (cache[0].src == src && cache[0].id == id) then 0 else 1 + IdGet(cache[1..], src, id)
  }

  predicate Cached(cache: seq<BcastId>, src: Addr, id: nat) {
    IdGet(cache, src, id) < |cache|
  }

  /** A reply of this discovery has passed through. */
  predicate Counted(cache: seq<BcastId>, src: Addr, id: nat) {
    Cached(cache, src, id) && cache[IdGet(cache, src, id)].count != 0
  }

  function IdInsert(cache: seq<BcastId>, src: Addr, id: nat, now: real): seq<BcastId> {
    [BcastId(src, id, now + BCAST_ID_SAVE, 0)] + cache
  }

  function MarkCount(cache: seq<BcastId>, src: Addr, id: nat): seq<BcastId>
    requires Cached(cache, src, id)
  {
    var k := IdGet(cache, src, id);
    cache[k := cache[k].(count := 1)]
  }

  function IdPurge(cache: seq<BcastId>, now: real): seq<BcastId> {
    if cache == [] then []
    else if cache[0].expire <= now then IdPurge(cache[1..], now)
    else [cache[0]] + IdPurge(cache[1..], now)
  }

  // ---------- route table ----------

  function RtAdd(n: Node, d: Addr): Node {
    if d in n.table then n else n.(table := n.table[d := FRESH_ENTRY], dests := [d] + n.dests)
  }

  function With(n: Node, d: Addr, e: Entry): Node {
    n.(table := n.table[d := e])
  }

  function PathInsert(e: Entry, p: Path): Entry {
    e.(paths := e.paths + [p], numPaths := e.numPaths + 1)
  }

  function PathDelete(e: Entry, id: Addr): Entry {
    e.(paths := Without(e.paths, id), numPaths := if HasNext(e.paths, id) then e.numPaths - 1 else e.numPaths)
  }

  function RtDown(e: Entry): Entry {
    if !e.up then e
    else e.(up := false, adv := Inf, paths := [], numPaths := 0, expire := 0.0)
  }

  /** A route replaced by a single path with a newer sequence number. */
  function Renewed(e: Entry, seqno: nat, p: Path): Entry {
    e.(seqno := seqno, adv := Inf, paths := [p], numPaths := 1, up := true, lastHops := MaxHopcount([p]))
  }

  function Added(e: Entry, p: Path): Entry {
    var e := PathInsert(e, p);
    e.(lastHops := MaxHopcount(e.paths))
  }

  function Refreshed(e: Entry, k: nat, until: real): Entry
    requires k < |e.paths|
  {
    e.(paths := e.paths[k := e.paths[k].(expire := MaxTime(e.paths[k].expire, until))])
  }

  /** Packets leave over the first path, which lives on. */
  function FirstUsed(e: Entry, until: real): Entry {
    if e.paths == [] then e else e.(paths := e.paths[0 := e.paths[0].(expire := until)])
  }

  /** forward() for a data packet: over the first path, and errors must be told if the packet came from elsewhere. */
  function Used(e: Entry, mine: bool, now: real): Entry {
    var e := FirstUsed(e, now + ACTIVE_ROUTE_TIMEOUT);
    e.(error := e.error || !mine)
  }

  function Drained(e: Entry, d: Addr, env: Env): Entry {
    if d in env.waiting then FirstUsed(e, env.now + ACTIVE_ROUTE_TIMEOUT) else e
  }

  function Settled(e: Entry, d: Addr, env: Env): Entry {
    if e.up then Drained(e.(reqTimeout := 0.0, reqLastTtl := 0, reqCnt := 0), d, env) else e
  }

  /** The advertised hop count is fixed the first time the route is told to another node. */
  function Advertised(e: Entry): Entry {
    if e.adv.Inf? then e.(adv := MaxHopcount(e.paths)) else e
  }

  function FirstLasthop(e: Entry): Addr {
    if e.paths == [] then 0 else e.paths[0].lasthop
  }

  function FirstNexthop(e: Entry): Addr {
    if e.paths == [] then 0 else e.paths[0].nexthop
  }

  // ---------- originating packets ----------

  /** An entry once the next ring for a search is chosen: its size is `reqLastTtl`. */
  function NextSearch(e: Entry, d: Addr, env: Env): Entry {
    var last := Max(e.reqLastTtl, e.lastHops.Num());
    var ttl := SearchTtl(last);
    var cnt := if last != 0 && last >= TTL_THRESHOLD then e.reqCnt + 1 else e.reqCnt;
    e.(reqLastTtl := ttl, reqCnt := cnt, expire := 0.0,
       reqTimeout := SearchTimeout(ttl, cnt, PerHopTime(d, env), env.now, MAX_RREQ_TIMEOUT))
  }

  /** The first hop of a request that leaves its source is filled in by the receiver. */
  function SendRequest(n: Node, d: Addr, env: Env): Out
    requires d in n.table
  {
    var e := n.table[d];
    if e.up || e.reqTimeout > env.now then Out(n, [])
    else if e.reqCnt > RREQ_RETRIES then
      Out(With(n, d, e.(reqTimeout := env.now + MAX_RREQ_TIMEOUT, reqCnt := 0)), [])
    else
      var e' := NextSearch(e, d, env);
      Out(With(n, d, e').(bid := n.bid + 1, seqno := n.seqno + 2),
          [Rreq(n.index, e'.reqLastTtl, 0, 0, n.bid, d, e.seqno, n.index, n.seqno + 2)])
  }

  predicate HasActiveRoute(n: Node) {
    exists d | d in n.table :: n.table[d].up
  }

  function SendHello(n: Node): Out {
    Out(n, if HasActiveRoute(n) then [Hello(n.index, n.seqno)] else [])
  }

  function SendError(l: Losses): Out {
    Out(l.node, if l.lost == [] then [] else [Rerr(l.node.index, l.lost)])
  }

  // ---------- requests ----------

  /** The reverse entry a request leaves, whether handling goes on, and whether a reverse path is in hand. */
  datatype Reverse = Reverse(entry: Entry, goOn: bool, inHand: bool)

  /** There is room for another path, and it is not too much longer than the shortest. */
  predicate Fits(n: Node, e: Entry, hopcount: nat) {
    e.numPaths < n.maxPaths && hopcount - MinHopcount(e.paths).Num() <= n.lenDiff
  }

  /** The entry after path `p` is offered under `seqno`: replaced by it, one path's life extended, the path
      added, or unchanged. */
  function Offered(n: Node, e: Entry, seqno: nat, p: Path): Entry
    requires p.hopcount >= 1
  {
    if e.seqno < seqno then Renewed(e, seqno, p)
    else if e.seqno == seqno && Fin(p.hopcount - 1).Below(e.adv) then
      var k := Find(e.paths, p.nexthop, p.lasthop);
      if k < |e.paths| then Refreshed(e, k, p.expire)
      else if NewDisjoint(e.paths, p.nexthop, p.lasthop) && Fits(n, e, p.hopcount) then Added(e, p)
      else e
    else e
  }

  function ReversePath(m: Msg, firstHop: Addr, env: Env): Path
    requires m.Rreq?
  {
    Path(m.sender, m.hopCount + 1, env.now + REV_ROUTE_LIFE, firstHop)
  }

  function UpdateReverse(n: Node, e: Entry, m: Msg, firstHop: Addr, env: Env): Reverse
    requires m.Rreq?
  {
    var e' := Offered(n, e, m.srcSeqno, ReversePath(m, firstHop, env));
    if e.seqno < m.srcSeqno then Reverse(e', true, true)
    else if e.seqno == m.srcSeqno && Fin(m.hopCount).Below(e.adv) then
      if Find(e.paths, m.sender, firstHop) < |e.paths| then Reverse(e', true, true)
      else if NewDisjoint(e.paths, m.sender, firstHop) then
        Reverse(e', m.hopCount + 1 - MinHopcount(e'.paths).Num() <= n.lenDiff, Fits(n, e, m.hopCount + 1))
      else
        var j := FindLast(e.paths, firstHop);
        var refuse := m.dst == n.index && (j == |e.paths| || m.hopCount + 1 > e.paths[j].hopcount);
        Reverse(e', !refuse, false)
    else Reverse(e', false, false)
  }

  /** A node that hears the source itself is the first hop. */
  function FirstHop(n: Node, m: Msg): Addr
    requires m.Rreq?
  {
    if m.hopCount == 0 then n.index else m.firstHop
  }

  /** The node once the id is cached and an entry for the source exists. */
  function Noted(n: Node, m: Msg, env: Env): Node
    requires m.Rreq?
  {
    RtAdd(if Cached(n.bcache, m.src, m.bcastId) then n
          else n.(bcache := IdInsert(n.bcache, m.src, m.bcastId, env.now)), m.src)
  }

  function RecvRequest(n: Node, m: Msg, env: Env): Out
    requires m.Rreq?
  {
    if m.src == n.index then Out(n, [])
    else
      var seen := Cached(n.bcache, m.src, m.bcastId);
      var n := Noted(n, m, env);
      var r := UpdateReverse(n, n.table[m.src], m, FirstHop(n, m), env);
      if !r.goOn then Out(With(n, m.src, r.entry), [])
      else AnswerRequest(With(n, m.src, Settled(r.entry, m.src, env)), m, seen, r.inHand, env)
  }

  function AnswerRequest(n: Node, m: Msg, seen: bool, inHand: bool, env: Env): Out
    requires m.Rreq? && m.src in n.table && Cached(n.bcache, m.src, m.bcastId)
  {
    if m.dst == n.index then AnswerAsDestination(n, m)
    else if m.dst in n.table && n.table[m.dst].up && n.table[m.dst].seqno >= m.dstSeqno then
      if inHand && !Counted(n.bcache, m.src, m.bcastId) then AnswerFromTable(n, m, env) else Out(n, [])
    else if seen then Out(n, [])
    else PassRequest(n, m)
  }

  function AnswerAsDestination(n: Node, m: Msg): Out
    requires m.Rreq?
  {
    var own := if n.seqno < m.dstSeqno then m.dstSeqno + 1 else n.seqno;
    var own := if own % 2 == 1 then own + 1 else own;
    Out(n.(seqno := own),
        [Rrep(n.index, m.sender, m.src, NETWORK_DIAMETER, 0, m.sender, m.bcastId, n.index, own, MY_ROUTE_TIMEOUT)])
  }

  function AnswerFromTable(n: Node, m: Msg, env: Env): Out
    requires m.Rreq? && m.dst in n.table && Cached(n.bcache, m.src, m.bcastId)
  {
    var rt := Advertised(n.table[m.dst]).(error := true);
    var life := if rt.paths == [] then 0.0 else rt.paths[0].expire - env.now;
    Out(With(n, m.dst, rt).(bcache := MarkCount(n.bcache, m.src, m.bcastId)),
        [Rrep(n.index, m.sender, m.src, NETWORK_DIAMETER, rt.adv.Num(), FirstLasthop(rt), m.bcastId, m.dst,
              rt.seqno, life)])
  }

  function PassRequest(n: Node, m: Msg): Out
    requires m.Rreq? && m.src in n.table
  {
    var asked := if m.dst in n.table then Max(n.table[m.dst].seqno, m.dstSeqno) else m.dstSeqno;
    var rt0 := Advertised(n.table[m.src]);
    Out(With(n, m.src, rt0),
        if m.ttl - 1 == 0 then []
        else [Rreq(n.index, m.ttl - 1, rt0.adv.Num(), FirstLasthop(rt0), m.bcastId, m.dst, asked, m.src, m.srcSeqno)])
  }

  // ---------- replies ----------

  datatype Forward = Forward(entry: Entry, goOn: bool)

  function ForwardPath(m: Msg, env: Env): Path
    requires m.Rrep?
  {
    Path(m.sender, m.hopCount + 1, env.now + m.lifetime, m.firstHop)
  }

  function UpdateForward(n: Node, e: Entry, m: Msg, env: Env): Forward
    requires m.Rrep?
  {
    var known := Find(e.paths, m.sender, m.firstHop) < |e.paths|;
    Forward(Offered(n, e, m.dstSeqno, ForwardPath(m, env)),
            || e.seqno < m.dstSeqno
            || (e.seqno == m.dstSeqno && Fin(m.hopCount).Below(e.adv)
                && (known || (NewDisjoint(e.paths, m.sender, m.firstHop) && Fits(n, e, m.hopCount + 1)))))
  }

  function RecvReply(n: Node, m: Msg, env: Env): Out
    requires m.Rrep?
  {
    if m.dst == n.index then Out(n, [])
    else
      var n := RtAdd(n, m.dst);
      var f := UpdateForward(n, n.table[m.dst], m, env);
      if !f.goOn then Out(With(n, m.dst, f.entry), [])
      else RelayReply(With(n, m.dst, Settled(f.entry, m.dst, env)), m, env)
  }

  function RelayReply(n: Node, m: Msg, env: Env): Out
    requires m.Rrep? && m.dst in n.table
  {
    if m.ipDst == n.index || m.ipDst !in n.table || !n.table[m.ipDst].up
       || !Cached(n.bcache, m.ipDst, m.bcastId) || Counted(n.bcache, m.ipDst, m.bcastId) then Out(n, [])
    else PassReply(n, m, env)
  }

  function PassReply(n: Node, m: Msg, env: Env): Out
    requires m.Rrep? && m.dst in n.table && m.ipDst in n.table && Cached(n.bcache, m.ipDst, m.bcastId)
  {
    var rt := Advertised(n.table[m.dst]);
    var reply := Rrep(n.index, FirstNexthop(n.table[m.ipDst]), m.ipDst, m.ttl - 1, rt.adv.Num(), FirstLasthop(rt),
                      m.bcastId, m.dst, m.dstSeqno, m.lifetime);
    var n := With(n, m.dst, rt.(error := true));
    var n := With(n, m.ipDst, FirstUsed(n.table[m.ipDst], env.now + ACTIVE_ROUTE_TIMEOUT));
    Out(n.(bcache := MarkCount(n.bcache, m.ipDst, m.bcastId)), if m.ttl - 1 == 0 then [] else [reply])
  }

  // ---------- errors and link failures ----------

  function LoseOne(n: Node, sender: Addr, u: Unreachable): Losses {
    if u.dst !in n.table || !n.table[u.dst].up || !HasNext(n.table[u.dst].paths, sender)
       || n.table[u.dst].seqno > u.seqno then Losses(n, [])
    else
      var e := PathDelete(n.table[u.dst], sender);
      var e := e.(highest := Max(e.highest, u.seqno));
      if e.paths != [] then Losses(With(n, u.dst, e), [])
      else
        var down := RtDown(e.(seqno := e.highest));
        if !down.error then Losses(With(n, u.dst, down), [])
        else Losses(With(n, u.dst, down.(error := false)), [Unreachable(u.dst, down.seqno)])
  }

  function LoseAll(n: Node, sender: Addr, us: seq<Unreachable>): Losses
    decreases |us|
  {
    if us == [] then Losses(n, [])
    else
      var l := LoseOne(n, sender, us[0]);
      var r := LoseAll(l.node, sender, us[1..]);
      Losses(r.node, l.lost + r.lost)
  }

  function RecvError(n: Node, m: Msg): Out
    requires m.Rerr?
  {
    SendError(LoseAll(n, m.sender, m.unreachable))
  }

  function FailOne(n: Node, id: Addr, d: Addr): Losses
    requires d in n.table
  {
    if !n.table[d].up || !HasNext(n.table[d].paths, id) then Losses(n, [])
    else
      var e := PathDelete(n.table[d], id);
      if e.paths != [] then Losses(With(n, d, e), [])
      else
        var e := e.(seqno := Max(e.seqno + 1, e.highest));
        Losses(With(n, d, RtDown(e.(error := false))), if e.error then [Unreachable(d, e.seqno)] else [])
  }

  function FailAll(n: Node, id: Addr, ds: seq<Addr>): Losses
    requires forall d | d in ds :: d in n.table
    decreases |ds|
  {
    if ds == [] then Losses(n, [])
    else
      var l := FailOne(n, id, ds[0]);
      var r := FailAll(l.node, id, ds[1..]);
      Losses(r.node, l.lost + r.lost)
  }

  predicate Listed(n: Node, ds: seq<Addr>) {
    forall d | d in ds :: d in n.table
  }

  function HandleLinkFailure(n: Node, id: Addr): Out
    requires Listed(n, n.dests)
  {
    SendError(FailAll(n, id, n.dests))
  }

  /** A stuck data packet leaves over another path, if there is one and it has not been salvaged too often. */
  function SalvageOne(n: Node, p: Stuck, now: real): Node {
    if p.data && p.dst != n.index && p.dst in n.table && n.table[p.dst].up && p.salvaged < MAX_SALVAGE_COUNT then
      With(n, p.dst, Used(n.table[p.dst], p.mine, now))
    else n
  }

  function SalvageAll(n: Node, ps: seq<Stuck>, now: real): Node
    decreases |ps|
  {
    if ps == [] then n else SalvageAll(SalvageOne(n, ps[0], now), ps[1..], now)
  }

  function ForgetNeighbor(n: Node, id: Addr): Node {
    n.(seqno := n.seqno + 2, nbrs := NbWithout(n.nbrs, id))
  }

  function NbDelete(n: Node, id: Addr, stuck: seq<Stuck>, now: real): Out
    requires Listed(n, n.dests)
  {
    var o := HandleLinkFailure(ForgetNeighbor(n, id), id);
    Out(SalvageAll(o.node, stuck, now), o.sent)
  }

  /** A hello is a reply about its sender, for this node. */
  function HelloAsReply(n: Node, m: Msg): Msg
    requires m.Hello?
  {
    Rrep(m.sender, n.index, n.index, 1, 0, n.index, 0, m.sender, m.seqno, HELLO_LIFE)
  }

  /** The sender of a hello is a neighbour for some more time. */
  function HeardHello(n: Node, id: Addr, now: real): Node {
    var k := NbFind(n.nbrs, id);
    n.(nbrs := if k < |n.nbrs| then n.nbrs[k := Neighbor(id, now + NEIGHBOR_LIFE)]
               else [Neighbor(id, now + NEW_NEIGHBOR_LIFE)] + n.nbrs)
  }

  function RecvHello(n: Node, m: Msg, env: Env): Out
    requires m.Hello?
  {
    RecvReply(HeardHello(n, m.sender, env.now), HelloAsReply(n, m), env)
  }

  // ---------- periodic purge and data packets ----------

  function PurgeOne(n: Node, d: Addr, env: Env): Out
    requires d in n.table
  {
    var e := n.table[d];
    if e.up && e.expire < env.now then
      var live := Unexpired(e.paths, env.now);
      var e := e.(paths := live, numPaths := e.numPaths - |e.paths| + |live|);
      if e.paths != [] then Out(With(n, d, e), [])
      else
        var s := Max(e.seqno + 1, e.highest);
        Out(With(n, d, RtDown(e.(seqno := if s % 2 == 0 then s + 1 else s))), [])
    else if e.up then Out(With(n, d, Drained(e, d, env)), [])
    else if d in env.waiting then SendRequest(n, d, env)
    else Out(n, [])
  }

  function PurgeAll(n: Node, ds: seq<Addr>, env: Env): Out
    requires forall d | d in ds :: d in n.table
    decreases |ds|
  {
    if ds == [] then Out(n, [])
    else
      var o := PurgeOne(n, ds[0], env);
      var r := PurgeAll(o.node, ds[1..], env);
      Out(r.node, o.sent + r.sent)
  }

  function RtPurge(n: Node, env: Env): Out
    requires Listed(n, n.dests)
  {
    PurgeAll(n, n.dests, env)
  }

  /** A data packet for `d`; `mine` when this node is its source. */
  function RtResolve(n: Node, d: Addr, mine: bool, env: Env): Out {
    var n := RtAdd(n, d);
    var e := n.table[d];
    if e.up then Out(With(n, d, Used(e, mine, env.now)), [])
    else if mine then SendRequest(n, d, env)
    else Out(n, [Rerr(n.index, [Unreachable(d, e.seqno)])])
  }
}
