/** The list of alternative paths that an AOMDV route entry keeps, as a sequence: what its searches find and
    what its changes keep.  AomdvRtable.RtEntry holds the list itself. */
module AomdvPaths {

  import opened RoutingBase

  datatype Path = Path(nexthop: Addr, hopcount: nat, expire: real, lasthop: Addr)

  // ---------- searching ----------

  predicate HasNext(ps: seq<Path>, id: Addr) {
    exists k | 0 <= k < |ps| :: ps[k].nexthop == id
  }

  /** No path shares this next hop or this last hop. */
  predicate NewDisjoint(ps: seq<Path>, nexthop: Addr, lasthop: Addr) {
    forall k | 0 <= k < |ps| :: ps[k].nexthop != nexthop && ps[k].lasthop != lasthop
  }

  /** The first path with this next hop and last hop, or the length of the list. */
  function Find(ps: seq<Path>, nexthop: Addr, lasthop: Addr): (k: nat)
    ensures k <= |ps|
    ensures k < |ps| ==> ps[k].nexthop == nexthop && ps[k].lasthop == lasthop
    ensures forall j | 0 <= j < k :: ps[j].nexthop != nexthop || ps[j].lasthop != lasthop
  {
    if ps == [] || (ps[0].nexthop == nexthop && ps[0].lasthop == lasthop) then 0
    else 1 + Find(ps[1..], nexthop, lasthop)
  }

  /** The first path with this last hop, or the length of the list. */
  function FindLast(ps: seq<Path>, lasthop: Addr): (k: nat)
    ensures k <= |ps|
    ensures k < |ps| ==> ps[k].lasthop == lasthop
    ensures forall j | 0 <= j < k :: ps[j].lasthop != lasthop
  {
    if ps == [] || ps[0].lasthop == lasthop then 0 else 1 + FindLast(ps[1..], lasthop)
  }

  function MaxHop(ps: seq<Path>): (m: nat)
    ensures forall k | 0 <= k < |ps| :: ps[k].hopcount <= m
    ensures m == 0 || exists k | 0 <= k < |ps| :: ps[k].hopcount == m
  {
    if ps == [] then 0
    else
      var r := MaxHop(ps[1..]);
      assert forall k | 0 < k < |ps| :: ps[k] == ps[1..][k - 1];
      if ps[0].hopcount > r then ps[0].hopcount else assert r == 0 || exists k | 0 <= k < |ps[1..]| :: ps[1..][k].hopcount == r; r
  }

  /** path_get_max_hopcount: INFINITY2 when no path has a positive length. */
  function MaxHopcount(ps: seq<Path>): Hops {
    if MaxHop(ps) == 0 then Inf else Fin(MaxHop(ps))
  }

  /** path_get_min_hopcount: INFINITY2 without a path. */
  function MinHopcount(ps: seq<Path>): (m: Hops)
    ensures forall k | 0 <= k < |ps| :: m.Fin? && m.n <= ps[k].hopcount
    ensures m.Fin? ==> exists k | 0 <= k < |ps| :: ps[k].hopcount == m.n
  {
    if ps == [] then Inf
    else
      var r := MinHopcount(ps[1..]);
      assert forall k | 0 < k < |ps| :: ps[k] == ps[1..][k - 1];
      if Fin(ps[0].hopcount).Below(r) then Fin(ps[0].hopcount) else r
  }

  // ---------- changing ----------

  /** Without the first path over this next hop. */
  function Without(ps: seq<Path>, id: Addr): seq<Path> {
    if ps == [] then [] else if ps[0].nexthop == id then ps[1..] else [ps[0]] + Without(ps[1..], id)
  }

  /** The unexpired paths, in order. */
  function Unexpired(ps: seq<Path>, now: real): seq<Path> {
    if ps == [] then [] else if ps[0].expire < now then Unexpired(ps[1..], now)
    else [ps[0]] + Unexpired(ps[1..], now)
  }

  // ---------- what the changes keep ----------

  /** No two paths share their next hop or their last hop. */
  predicate Disjoint(ps: seq<Path>) {
    forall j, k | 0 <= j < k < |ps| :: ps[j].nexthop != ps[k].nexthop && ps[j].lasthop != ps[k].lasthop
  }

  /** A path with the same route, whatever its lifetime. */
  predicate SamePath(p: Path, q: Path) {
    p.nexthop == q.nexthop && p.hopcount == q.hopcount && p.lasthop == q.lasthop
  }

  predicate Among(p: Path, ps: seq<Path>) {
    exists k | 0 <= k < |ps| :: SamePath(p, ps[k])
  }

  lemma {:induction false} WithoutKeeps(ps: seq<Path>, id: Addr)
    ensures var qs := Without(ps, id);
            && |qs| == |ps| - (if HasNext(ps, id) then 1 else 0)
            && (forall q | q in qs :: q in ps)
            && (Disjoint(ps) ==> Disjoint(qs) && !HasNext(qs, id))
  {
    if ps == [] {
    } else if ps[0].nexthop == id {
      assert forall k | 0 <= k < |ps[1..]| :: ps[1..][k] == ps[k + 1];
    } else {
      WithoutKeeps(ps[1..], id);
      var qs := Without(ps[1..], id);
      assert ps == [ps[0]] + ps[1..];
      assert HasNext(ps, id) <==> HasNext(ps[1..], id) by {
        if HasNext(ps, id) { var k :| 0 <= k < |ps| && ps[k].nexthop == id; assert ps[1..][k - 1].nexthop == id; }
      }
      if Disjoint(ps) {
        assert Disjoint(ps[1..]);
        forall q | q in qs ensures ps[0].nexthop != q.nexthop && ps[0].lasthop != q.lasthop {
          var k :| 0 <= k < |ps[1..]| && ps[1..][k] == q;
          assert ps[k + 1] == q;
        }
        assert !HasNext([ps[0]] + qs, id);
      }
    }
  }

  lemma {:induction false} UnexpiredKeeps(ps: seq<Path>, now: real)
    ensures var qs := Unexpired(ps, now);
            && |qs| <= |ps|
            && (forall q :: q in qs <==> q in ps && q.expire >= now)
            && (Disjoint(ps) ==> Disjoint(qs))
  {
    if ps != [] {
      UnexpiredKeeps(ps[1..], now);
      assert ps == [ps[0]] + ps[1..];
      if Disjoint(ps) {
        assert Disjoint(ps[1..]);
        forall q | q in Unexpired(ps[1..], now) ensures ps[0].nexthop != q.nexthop && ps[0].lasthop != q.lasthop {
          var k :| 0 <= k < |ps[1..]| && ps[1..][k] == q;
          assert ps[k + 1] == q;
        }
      }
    }
  }

  lemma UnexpiredCuts(ps: seq<Path>, k: nat, now: real)
    requires k < |ps| && ps[k].expire < now
    ensures Unexpired(ps[..k] + ps[k + 1..], now) == Unexpired(ps, now)
  {
    if k == 0 {
      assert ps[..0] + ps[1..] == ps[1..];
    } else {
      UnexpiredCuts(ps[1..], k - 1, now);
      assert (ps[..k] + ps[k + 1..])[1..] == ps[1..][..k - 1] + ps[1..][k..];
    }
  }

  lemma {:induction false} AllUnexpired(ps: seq<Path>, now: real)
    requires forall k | 0 <= k < |ps| :: ps[k].expire >= now
    ensures Unexpired(ps, now) == ps
  {
    if ps != [] { AllUnexpired(ps[1..], now); }
  }

  lemma {:induction false} WithoutCuts(ps: seq<Path>, k: nat, id: Addr)
    requires k < |ps| && ps[k].nexthop == id && forall j | 0 <= j < k :: ps[j].nexthop != id
    ensures Without(ps, id) == ps[..k] + ps[k + 1..]
  {
    if k > 0 { WithoutCuts(ps[1..], k - 1, id); }
  }

  lemma {:induction false} WithoutNone(ps: seq<Path>, id: Addr)
    requires !HasNext(ps, id)
    ensures Without(ps, id) == ps
  {
    if ps != [] {
      assert ps[0].nexthop != id;
      assert forall j | 0 <= j < |ps[1..]| :: ps[1..][j] == ps[j + 1];
      WithoutNone(ps[1..], id);
    }
  }
}
