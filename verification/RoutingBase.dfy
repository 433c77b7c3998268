/** What AODV and AOMDV have in common: addresses and hop counts, the constants of aodv/aodv.h and
    aomdv/aomdv.h that agree, the size and pace of expanding-ring searches, and the neighbour list. */
module RoutingBase {

  type Addr = nat

  const INFINITY2: nat := 255
  const MY_ROUTE_TIMEOUT := 10.0
  const ACTIVE_ROUTE_TIMEOUT := 10.0
  const REV_ROUTE_LIFE := 6.0
  const BCAST_ID_SAVE := 6.0
  const RREQ_RETRIES: nat := 3
  const TTL_START := 5
  const TTL_THRESHOLD := 7
  const TTL_INCREMENT := 2
  const NODE_TRAVERSAL_TIME := 0.03
  const NETWORK_DIAMETER := 30
  const NEIGHBOR_LIFE := 4.5  // 1.5 * ALLOWED_HELLO_LOSS * HELLO_INTERVAL

  /** A hop count; `Inf` is INFINITY2 (and AOMDV's INFINITY), above every real count. */
  datatype Hops = Fin(n: nat) | Inf {
    predicate Below(other: Hops) {
      Fin? && (other.Inf? || n < other.n)
    }

    function Num(): nat {
      if Fin? then n else INFINITY2
    }
  }

  /** A destination in a route error, and the number under which it is gone. */
  datatype Unreachable = Unreachable(dst: Addr, seqno: nat)

  datatype Neighbor = Neighbor(addr: Addr, expire: real)

  /** What the handlers read from outside the routing state: the clock, the destinations for which the
      send buffer holds a packet, and the measured per-hop latencies. */
  datatype Env = Env(now: real, waiting: set<Addr>, perHop: map<Addr, real>)

  function Max(a: int, b: int): int {
    if a < b then b else a
  }

  function MaxTime(a: real, b: real): real {
    if a < b then b else a
  }

  /** PerHopTime: the mean measured latency, or the default without any measurement. */
  function PerHopTime(d: Addr, env: Env): real {
    if d in env.perHop then env.perHop[d] else NODE_TRAVERSAL_TIME
  }

  // ---------- expanding-ring searches ----------

  /** The ring size for the next search after one of size `last`. */
  function SearchTtl(last: int): int {
    if last == 0 then TTL_START
    else if last < TTL_THRESHOLD then last + TTL_INCREMENT
    else NETWORK_DIAMETER
  }

  /** When the next search may start; `limit` is MAX_RREQ_TIMEOUT, in which the protocols differ. */
  function SearchTimeout(ttl: int, cnt: nat, perHop: real, now: real, limit: real): real {
    var t := 2.0 * ttl as real * perHop;
    var t := (if cnt > 0 then t * cnt as real else t) + now;
    if t > now + limit then now + limit else t
  }

  /** How long a search waits for an answer: as long as a ring takes to cross and come back, as often as it was tried, but
      no longer than `limit`. */
  function Patience(ttl: int, cnt: nat, perHop: real, limit: real): real {
    var t := 2.0 * ttl as real * perHop * Max(1, cnt) as real;
    if t > limit then limit else t
  }

  lemma WaitIs(ttl: int, cnt: nat, perHop: real, now: real, limit: real)
    ensures SearchTimeout(ttl, cnt, perHop, now, limit) == now + Patience(ttl, cnt, perHop, limit)
  {
    var t := 2.0 * ttl as real * perHop;
    assert Max(1, cnt) as real == if cnt > 0 then cnt as real else 1.0;
    assert t * 1.0 == t;
  }

  method RingTimeout(ttl: int, cnt: nat, perHop: real, now: real, limit: real) returns (t: real)
    ensures t == SearchTimeout(ttl, cnt, perHop, now, limit)
  {
    t := 2.0 * ttl as real * perHop;
    if cnt > 0 {
      t := t * cnt as real;
    }
    t := t + now;
    if t > now + limit {
      t := now + limit;
    }
  }

  // ---------- the neighbour list ----------

  /** The position of a neighbour, or the length of the list. */
  function NbFind(nbs: seq<Neighbor>, id: Addr): (k: nat)
    ensures k <= |nbs|
    ensures k < |nbs| ==> nbs[k].addr == id
    ensures forall j | 0 <= j < k :: nbs[j].addr != id
  {
    if nbs == [] || nbs[0].addr == id then 0 else 1 + NbFind(nbs[1..], id)
  }

  predicate NbKnown(nbs: seq<Neighbor>, id: Addr) {
    NbFind(nbs, id) < |nbs|
  }

  function NbWithout(nbs: seq<Neighbor>, id: Addr): seq<Neighbor> {
    var k := NbFind(nbs, id);
    if k < |nbs| then nbs[..k] + nbs[k + 1..] else nbs
  }

  lemma NbFound(nbs: seq<Neighbor>, id: Addr, k: nat)
    requires k <= |nbs| && (k < |nbs| ==> nbs[k].addr == id) && forall j | 0 <= j < k :: nbs[j].addr != id
    ensures NbFind(nbs, id) == k
  {
  }

  /** The first record of `id` is gone, if there was one. */
  ghost predicate Forgotten(nbs: seq<Neighbor>, id: Addr, nbs': seq<Neighbor>) {
    if forall k | 0 <= k < |nbs| :: nbs[k].addr != id then nbs' == nbs
    else exists k | 0 <= k < |nbs| ::
      nbs[k].addr == id && (forall j | 0 <= j < k :: nbs[j].addr != id) && nbs' == nbs[..k] + nbs[k + 1..]
  }

  lemma WithoutForgets(nbs: seq<Neighbor>, id: Addr)
    ensures Forgotten(nbs, id, NbWithout(nbs, id))
  {
    assert NbFind(nbs, id) <= |nbs|;
  }

  // ---------- route errors ----------

  /** The first place where `d` is named under `least` or a later number, or the length of the list. */
  function Naming(us: seq<Unreachable>, d: Addr, least: nat): (k: nat)
    ensures k <= |us|
    ensures k < |us| ==> us[k].dst == d && us[k].seqno >= least
    ensures forall j | 0 <= j < k :: us[j].dst != d || us[j].seqno < least
  {
    if us == [] || (us[0].dst == d && us[0].seqno >= least) then 0 else 1 + Naming(us[1..], d, least)
  }

  /** No destination is reported twice. */
  predicate Once(us: seq<Unreachable>) {
    forall j, k | 0 <= j < k < |us| :: us[j].dst != us[k].dst
  }

  predicate Distinct(ds: seq<Addr>) {
    forall j, k | 0 <= j < k < |ds| :: ds[j] != ds[k]
  }

  // ---------- sequences and maps ----------

  lemma SplitAt<T>(s: seq<T>, k: nat)
    requires k < |s|
    ensures s[k..] != [] && s[k..][0] == s[k] && s[k..][1..] == s[k + 1..]
  {
  }

  lemma Regroup<T>(a: seq<T>, b: seq<T>, c: seq<T>)
    ensures a + (b + c) == (a + b) + c
  {
  }

  lemma UpdateTwice<K, V>(m: map<K, V>, k: K, u: V, v: V)
    ensures m[k := u][k := v] == m[k := v]
  {
  }
}
