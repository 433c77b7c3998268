/** One AODV node as a value: its route table, broadcast-id cache and neighbour cache, the packets it
    sends, and one function per handler.  The class AodvAgent.Agent carries out the same handlers in
    place and is proved equal to these functions; AodvNetwork runs many nodes together.

    Sequence numbers and hop counts are naturals: the model assumes they do not wrap. */
module AodvNode {

  import opened RoutingBase

  const MAX_RREQ_TIMEOUT := 10.0

  /** A route entry.  `up` is RTF_UP against RTF_DOWN. */
  datatype Entry = Entry(
    seqno: nat, hops: Hops, lastHops: Hops, nexthop: Addr, precursors: seq<Addr>, expire: real, up: bool,
    reqTimeout: real, reqCnt: nat, reqLastTtl: int)

  const FRESH_ENTRY := Entry(0, Inf, Inf, 0, [], 0.0, false, 0.0, 0, 0)

  datatype BcastId = BcastId(src: Addr, id: nat, expire: real)

  /** A packet on the air.  `sender` is the IP source of a request, error or hello and rp_src of a reply. */
  datatype Msg =
    | Rreq(sender: Addr, ttl: int, hopCount: nat, bcastId: nat, dst: Addr, dstSeqno: nat, src: Addr, srcSeqno: nat)
    | Rrep(sender: Addr, to: Addr, ipDst: Addr, ttl: int, hopCount: nat, dst: Addr, dstSeqno: nat, lifetime: real)
    | Rerr(sender: Addr, unreachable: seq<Unreachable>)
    | Hello(sender: Addr, seqno: nat)

  /** `dests` is the route table's list order, newest entry first; the other lists are kept that way too. */
  datatype Node = Node(
    index: Addr, seqno: nat, bid: nat, table: map<Addr, Entry>, dests: seq<Addr>, bcache: seq<BcastId>,
    nbrs: seq<Neighbor>)

  /** The state a handler leaves and the packets it sends, in order. */
  datatype Out = Out(node: Node, sent: seq<Msg>)

  /** The state a table walk leaves and the destinations it reports lost. */
  datatype Losses = Losses(node: Node, lost: seq<Unreachable>)

  function Boot(index: Addr): Node {
    Node(index, 2, 1, map[], [], [], [])
  }

  // ---------- broadcast id cache ----------

  predicate IdLookup(cache: seq<BcastId>, src: Addr, id: nat) {
    exists k | 0 <= k < |cache| :: cache[k].src == src && cache[k].id == id
  }

  function IdInsert(cache: seq<BcastId>, src: Addr, id: nat, now: real): seq<BcastId> {
    [BcastId(src, id, now + BCAST_ID_SAVE)] + cache
  }

  function IdPurge(cache: seq<BcastId>, now: real): seq<BcastId> {
    if cache == [] then []
    else if cache[0].expire <= now then IdPurge(cache[1..], now)
    else [cache[0]] + IdPurge(cache[1..], now)
  }

  // ---------- route table ----------

  function RtAdd(n: Node, d: Addr): Node {
    if d in n.table then n else n.(table := n.table[d := FRESH_ENTRY], dests := [d] + n.dests)
  }

  function With(n: Node, d: Addr, e: Entry): Node {
    n.(table := n.table[d := e])
  }

  function PcFind(pcs: seq<Addr>, id: Addr): (k: nat)
    ensures k <= |pcs|
    ensures k < |pcs| ==> pcs[k] == id
    ensures forall j | 0 <= j < k :: pcs[j] != id
  {
    if pcs == [] || pcs[0] == id then 0 else 1 + PcFind(pcs[1..], id)
  }

  function PcInsert(pcs: seq<Addr>, id: Addr): seq<Addr> {
    if PcFind(pcs, id) < |pcs| then pcs else [id] + pcs
  }

  function PcWithout(pcs: seq<Addr>, id: Addr): seq<Addr> {
    var k := PcFind(pcs, id);
    if k < |pcs| then pcs[..k] + pcs[k + 1..] else pcs
  }

  function RtUpdate(e: Entry, seqno: nat, metric: nat, nexthop: Addr, expire: real): Entry {
    e.(seqno := seqno, hops := Fin(metric), up := true, nexthop := nexthop, expire := expire)
  }

  function RtDown(e: Entry): Entry {
    if !e.up then e
    else e.(lastHops := e.hops, hops := Inf, up := false, nexthop := 0, expire := 0.0)
  }

  /** The expiry forward() writes into a route when the send buffer releases packets over it. */
  function Drained(e: Entry, d: Addr, env: Env): Entry {
    if d in env.waiting then e.(expire := env.now + ACTIVE_ROUTE_TIMEOUT) else e
  }

  /** The cast of a remaining life to an unsigned integer. */
  function Whole(x: real): real {
    if x < 0.0 then 0.0 else x.Floor as real
  }

  // ---------- originating packets ----------

  /** An entry once the next ring for a search is chosen: its size is `reqLastTtl`. */
  function NextSearch(e: Entry, d: Addr, env: Env): Entry {
    var last := Max(e.reqLastTtl, e.lastHops.Num());
    var ttl := SearchTtl(last);
    var cnt := if last != 0 && last >= TTL_THRESHOLD then e.reqCnt + 1 else e.reqCnt;
    e.(reqLastTtl := ttl, reqCnt := cnt, expire := 0.0,
       reqTimeout := SearchTimeout(ttl, cnt, PerHopTime(d, env), env.now, MAX_RREQ_TIMEOUT))
  }

  function SendRequest(n: Node, d: Addr, env: Env): Out
    requires d in n.table
  {
    var e := n.table[d];
    if e.up || e.reqTimeout > env.now then Out(n, [])
    else if e.reqCnt > RREQ_RETRIES then
      Out(With(n, d, e.(reqTimeout := env.now + MAX_RREQ_TIMEOUT, reqCnt := 0)), [])
    else
      var e' := NextSearch(e, d, env);
      Out(With(n, d, e').(bid := n.bid + 1, seqno := n.seqno + 2),
          [Rreq(n.index, e'.reqLastTtl, 1, n.bid, d, e.seqno, n.index, n.seqno + 2)])
  }

  function SendHello(n: Node): Out {
    Out(n, [Hello(n.index, n.seqno)])
  }

  function SendError(l: Losses): Out {
    Out(l.node, if l.lost == [] then [] else [Rerr(l.node.index, l.lost)])
  }

  // ---------- requests ----------

  /** The route a request or reply offers is newer, or as new and shorter. */
  predicate Fresher(seqno: nat, hopCount: nat, e: Entry) {
    e.seqno < seqno || (e.seqno == seqno && Fin(hopCount).Below(e.hops))
  }

  /** The reverse route after a request: refreshed, and replaced when the request offers a better one. */
  function ReverseEntry(e: Entry, m: Msg, env: Env): Entry
    requires m.Rreq?
  {
    var e := e.(expire := MaxTime(e.expire, env.now + REV_ROUTE_LIFE));
    if Fresher(m.srcSeqno, m.hopCount, e) then
      var u := RtUpdate(e, m.srcSeqno, m.hopCount, m.sender, MaxTime(e.expire, env.now + REV_ROUTE_LIFE));
      var u := if u.reqTimeout > 0.0 then
                 u.(reqCnt := 0, reqTimeout := 0.0, reqLastTtl := m.hopCount, expire := env.now + ACTIVE_ROUTE_TIMEOUT)
               else u;
      Drained(u, m.src, env)
    else e
  }

  /** The own sequence number a destination answers with: past the one asked for, and even. */
  function NextOwnSeqno(own: nat, asked: nat): nat {
    var s := Max(own, asked) + 1;
    if s % 2 == 1 then s + 1 else s
  }

  function RecvRequest(n: Node, m: Msg, env: Env): Out
    requires m.Rreq?
  {
    if m.src == n.index || IdLookup(n.bcache, m.src, m.bcastId) then Out(n, [])
    else AnswerRequest(LearnReverse(n, m, env), m, env)
  }

  /** The first half of recvRequest: the id is cached and the reverse route brought up to date. */
  function LearnReverse(n: Node, m: Msg, env: Env): Node
    requires m.Rreq?
  {
    var n := RtAdd(n.(bcache := IdInsert(n.bcache, m.src, m.bcastId, env.now)), m.src);
    With(n, m.src, ReverseEntry(n.table[m.src], m, env))
  }

  /** The second half of recvRequest: reply, or pass the request on. */
  function AnswerRequest(n: Node, m: Msg, env: Env): Out
    requires m.Rreq? && m.src in n.table
  {
    var back := n.table[m.src].nexthop;
    if m.dst == n.index then
      var own := NextOwnSeqno(n.seqno, m.dstSeqno);
      Out(n.(seqno := own), [Rrep(n.index, back, m.src, NETWORK_DIAMETER, 1, n.index, own, MY_ROUTE_TIMEOUT)])
    else if m.dst in n.table && n.table[m.dst].hops.Fin? && n.table[m.dst].seqno >= m.dstSeqno then
      var rt := n.table[m.dst];
      var reply := Rrep(n.index, back, m.src, NETWORK_DIAMETER, rt.hops.n + 1, m.dst, rt.seqno,
                        Whole(rt.expire - env.now));
      var n := With(n, m.dst, rt.(precursors := PcInsert(rt.precursors, back)));
      var rt0 := n.table[m.src];
      Out(With(n, m.src, rt0.(precursors := PcInsert(rt0.precursors, n.table[m.dst].nexthop))), [reply])
    else
      var asked := if m.dst in n.table then Max(n.table[m.dst].seqno, m.dstSeqno) else m.dstSeqno;
      Out(n, if m.ttl - 1 == 0 then []
             else [Rreq(n.index, m.ttl - 1, m.hopCount + 1, m.bcastId, m.dst, asked, m.src, m.srcSeqno)])
  }

  // ---------- replies ----------

  function ForwardEntry(e: Entry, m: Msg, env: Env): Entry
    requires m.Rrep?
  {
    Drained(RtUpdate(e, m.dstSeqno, m.hopCount, m.sender, env.now + m.lifetime)
            .(reqCnt := 0, reqTimeout := 0.0, reqLastTtl := m.hopCount), m.dst, env)
  }

  function RecvReply(n: Node, m: Msg, env: Env): Out
    requires m.Rrep?
  {
    var n := RtAdd(n, m.dst);
    if !Fresher(m.dstSeqno, m.hopCount, n.table[m.dst]) then Out(n, [])
    else
      var n := With(n, m.dst, ForwardEntry(n.table[m.dst], m, env));
      if m.ipDst == n.index || m.ipDst !in n.table || n.table[m.ipDst].hops.Inf? then Out(n, [])
      else PassReply(n, m, env)
  }

  /** The tail of recvReply: the reply goes one hop back towards the node that asked. */
  function PassReply(n: Node, m: Msg, env: Env): Out
    requires m.Rrep? && m.dst in n.table && m.ipDst in n.table
  {
    var rt0 := n.table[m.ipDst];
    var alive := m.ttl - 1 != 0;
    var n := if alive then With(n, m.ipDst, rt0.(expire := env.now + ACTIVE_ROUTE_TIMEOUT)) else n;
    var rt := n.table[m.dst];
    Out(With(n, m.dst, rt.(precursors := PcInsert(rt.precursors, rt0.nexthop))),
        if alive then [Rrep(n.index, rt0.nexthop, m.ipDst, m.ttl - 1, m.hopCount + 1, m.dst, m.dstSeqno, m.lifetime)]
        else [])
  }

  // ---------- errors and link failures ----------

  /** One destination of an incoming route error. */
  function LoseOne(n: Node, sender: Addr, u: Unreachable): Losses {
    if u.dst !in n.table then Losses(n, [])
    else
      var e := n.table[u.dst];
      if e.hops.Inf? || e.nexthop != sender || e.seqno > u.seqno then Losses(n, [])
      else
        var down := RtDown(e.(seqno := u.seqno));
        if down.precursors == [] then Losses(With(n, u.dst, down), [])
        else Losses(With(n, u.dst, down.(precursors := [])), [u])
  }

  function LoseAll(n: Node, sender: Addr, us: seq<Unreachable>): Losses
    decreases |us|
  {
    if us == [] then Losses(n, [])
    else
      var l := LoseOne(n, sender, us[0]);
      var r := LoseAll(l.node, sender, us[1..]);
      Losses(r.node, l.lost + r.lost)
  }

  function RecvError(n: Node, m: Msg): Out
    requires m.Rerr?
  {
    SendError(LoseAll(n, m.sender, m.unreachable))
  }

  /** One table entry when the link to `id` is gone. */
  function FailOne(n: Node, id: Addr, d: Addr): Losses
    requires d in n.table
  {
    var e := n.table[d];
    if e.hops.Fin? && e.nexthop == id then
      var down := RtDown(e.(seqno := e.seqno + 1));
      Losses(With(n, d, down.(precursors := PcWithout(down.precursors, id))), [Unreachable(d, e.seqno + 1)])
    else Losses(With(n, d, e.(precursors := PcWithout(e.precursors, id))), [])
  }

  function FailAll(n: Node, id: Addr, ds: seq<Addr>): Losses
    requires forall d | d in ds :: d in n.table
    decreases |ds|
  {
    if ds == [] then Losses(n, [])
    else
      var l := FailOne(n, id, ds[0]);
      var r := FailAll(l.node, id, ds[1..]);
      Losses(r.node, l.lost + r.lost)
  }

  predicate TableListed(n: Node) {
    forall d | d in n.dests :: d in n.table
  }

  function HandleLinkFailure(n: Node, id: Addr): Out
    requires TableListed(n)
  {
    SendError(FailAll(n, id, n.dests))
  }

  function NbDelete(n: Node, id: Addr): Out
    requires TableListed(n)
  {
    HandleLinkFailure(n.(seqno := n.seqno + 2, nbrs := NbWithout(n.nbrs, id)), id)
  }

  function RecvHello(n: Node, m: Msg, env: Env): Out
    requires m.Hello?
  {
    var nb, k := Neighbor(m.sender, env.now + NEIGHBOR_LIFE), NbFind(n.nbrs, m.sender);
    Out(if k < |n.nbrs| then n.(nbrs := n.nbrs[k := nb]) else n.(nbrs := [nb] + n.nbrs, seqno := n.seqno + 2), [])
  }

  // ---------- periodic purge and data packets ----------

  function PurgeOne(n: Node, d: Addr, env: Env): Out
    requires d in n.table
  {
    var e := n.table[d];
    if e.up && e.expire < env.now then Out(With(n, d, RtDown(e.(seqno := e.seqno + 1))), [])
    else if e.up then Out(With(n, d, Drained(e, d, env)), [])
    else if d in env.waiting then SendRequest(n, d, env)
    else Out(n, [])
  }

  function PurgeAll(n: Node, ds: seq<Addr>, env: Env): Out
    requires forall d | d in ds :: d in n.table
    decreases |ds|
  {
    if ds == [] then Out(n, [])
    else
      var o := PurgeOne(n, ds[0], env);
      var r := PurgeAll(o.node, ds[1..], env);
      Out(r.node, o.sent + r.sent)
  }

  function RtPurge(n: Node, env: Env): Out
    requires TableListed(n)
  {
    PurgeAll(n, n.dests, env)
  }

  /** A data packet for `d`; `mine` when this node is its source. */
  function RtResolve(n: Node, d: Addr, mine: bool, env: Env): Out {
    var n := RtAdd(n, d);
    var e := n.table[d];
    if e.up then Out(With(n, d, e.(expire := env.now + ACTIVE_ROUTE_TIMEOUT)), [])
    else if mine then SendRequest(n, d, env)
    else Out(n, [Rerr(n.index, [Unreachable(d, e.seqno)])])
  }
}
