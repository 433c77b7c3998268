/** Loads that flows put on links, and what a weighted max-min fair sharing of the links is.
    A flow's path lists the links it crosses; a link listed twice carries the flow twice. */
module AsimLoads {

  function Count(path: seq<nat>, l: nat): nat {
    if path == [] then 0 else Count(path[..|path| - 1], l) + (if path[|path| - 1] == l then 1 else 0)
  }

  /** What a flow sending at rate x along `path` puts on link `l`. */
  function Share(path: seq<nat>, l: nat, x: real): real {
    Count(path, l) as real * x
  }

  /** The rate on link `l` when flow f sends at w[f]. */
  function Load(adj: seq<seq<nat>>, w: seq<real>, l: nat): real
    requires |adj| == |w|
  {
    if adj == [] then 0.0
    else
      var n := |adj| - 1;
      Load(adj[..n], w[..n], l) + Share(adj[n], l, w[n])
  }

  /** The rates of the flows marked `which`, nothing for the others. */
  function Part(p: seq<real>, marks: seq<bool>, which: bool): (w: seq<real>)
    requires |p| == |marks|
    ensures |w| == |p| && forall f | 0 <= f < |p| :: w[f] == if marks[f] == which then p[f] else 0.0
  {
    seq(|p|, f requires 0 <= f < |p| && |marks| == |p| => if marks[f] == which then p[f] else 0.0)
  }

  lemma {:induction false} CountPositive(path: seq<nat>, l: nat)
    ensures Count(path, l) > 0 <==> l in path
  {
    if path != [] {
      CountPositive(path[..|path| - 1], l);
      assert path == path[..|path| - 1] + [path[|path| - 1]];
    }
  }

  lemma ShareMinus(path: seq<nat>, l: nat, x: real, y: real)
    ensures Share(path, l, x - y) == Share(path, l, x) - Share(path, l, y)
    ensures Share(path, l, 0.0) == 0.0
  {
  }

  lemma ShareScaled(path: seq<nat>, l: nat, x: real, k: real)
    ensures Share(path, l, x * k) == Share(path, l, x) * k
  {
  }

  lemma ShareSign(path: seq<nat>, l: nat, x: real)
    ensures l !in path ==> Share(path, l, x) == 0.0
    ensures l in path && x >= 0.0 ==> Share(path, l, x) >= x
    ensures l in path && x <= 0.0 ==> Share(path, l, x) <= x
  {
    CountPositive(path, l);
    if l in path {
      var k := Count(path, l) as real;
      assert Share(path, l, x) == k * x;
      Times(k, x);
    }
  }

  lemma Times(k: real, x: real)
    requires k >= 1.0
    ensures x >= 0.0 ==> k * x >= x
    ensures x <= 0.0 ==> k * x <= x
  {
    if x >= 0.0 {
      assert (k - 1.0) * x >= 0.0;
    } else {
      assert (k - 1.0) * (-x) >= 0.0;
    }
  }

  /** Changing the rate of one flow changes the load of each link it crosses, and of no other. */
  lemma {:induction false} LoadUpdate(adj: seq<seq<nat>>, w: seq<real>, f: nat, v: real, l: nat)
    requires |adj| == |w| && f < |adj|
    ensures Load(adj, w[f := v], l) == Load(adj, w, l) + Share(adj[f], l, v - w[f])
    decreases |adj|
  {
    hide Share;
    var n := |adj| - 1;
    ShareMinus(adj[f], l, v, w[f]);
    if f == n {
      assert w[f := v][..n] == w[..n];
    } else {
      LoadUpdate(adj[..n], w[..n], f, v, l);
      assert w[f := v][..n] == w[..n][f := v];
    }
  }

  lemma {:induction false} LoadNonneg(adj: seq<seq<nat>>, w: seq<real>, l: nat)
    requires |adj| == |w| && forall f | 0 <= f < |w| :: w[f] >= 0.0
    ensures Load(adj, w, l) >= 0.0
    ensures forall f | 0 <= f < |w| && l in adj[f] :: w[f] <= Load(adj, w, l)
    decreases |adj|
  {
    hide Share;
    if adj != [] {
      var n := |adj| - 1;
      LoadNonneg(adj[..n], w[..n], l);
      ShareSign(adj[n], l, w[n]);
      forall f | 0 <= f < |w| && l in adj[f] ensures w[f] <= Load(adj, w, l) {
        if f < n { assert adj[..n][f] == adj[f] && w[..n][f] == w[f]; }
      }
    }
  }

  lemma {:induction false} LoadZero(adj: seq<seq<nat>>, w: seq<real>, l: nat)
    requires |adj| == |w| && forall f | 0 <= f < |w| && l in adj[f] :: w[f] == 0.0
    ensures Load(adj, w, l) == 0.0
    decreases |adj|
  {
    hide Share;
    if adj != [] {
      var n := |adj| - 1;
      forall f | 0 <= f < n && l in adj[..n][f] ensures w[..n][f] == 0.0 { assert l in adj[f]; }
      LoadZero(adj[..n], w[..n], l);
      ShareSign(adj[n], l, w[n]);
    }
  }

  /** The marked and the unmarked flows together put the whole load on a link. */
  lemma {:induction false} LoadParts(adj: seq<seq<nat>>, p: seq<real>, marks: seq<bool>, l: nat)
    requires |adj| == |p| == |marks|
    ensures Load(adj, Part(p, marks, true), l) + Load(adj, Part(p, marks, false), l) == Load(adj, p, l)
    decreases |adj|
  {
    hide Share;
    if adj != [] {
      var n := |adj| - 1;
      LoadParts(adj[..n], p[..n], marks[..n], l);
      assert Part(p, marks, true)[..n] == Part(p[..n], marks[..n], true);
      assert Part(p, marks, false)[..n] == Part(p[..n], marks[..n], false);
      ShareMinus(adj[n], l, 0.0, 0.0);
    }
  }

  /** When the load of a link drops, the rate of one of the flows crossing it does. */
  lemma {:induction false} SomeShrinks(adj: seq<seq<nat>>, w: seq<real>, v: seq<real>, l: nat) returns (g: nat)
    requires |adj| == |w| == |v| && Load(adj, v, l) < Load(adj, w, l)
    ensures g < |adj| && l in adj[g] && v[g] < w[g]
    decreases |adj|
  {
    hide Share;
    var n := |adj| - 1;
    if l in adj[n] && v[n] < w[n] {
      g := n;
    } else {
      ShareMinus(adj[n], l, v[n], w[n]);
      ShareSign(adj[n], l, v[n] - w[n]);
      g := SomeShrinks(adj[..n], w[..n], v[..n], l);
      assert adj[..n][g] == adj[g];
    }
  }

  // ---------- weighted max-min fairness ----------

  predicate Bulky(adj: seq<seq<nat>>, short: seq<bool>, l: nat)
    requires |adj| == |short|
  {
    exists f | 0 <= f < |adj| :: !short[f] && l in adj[f]
  }

  predicate AllFit(adj: seq<seq<nat>>, short: seq<bool>, cap: seq<real>, p: seq<real>)
    requires |adj| == |short| == |p|
  {
    forall l | 0 <= l < |cap| && Bulky(adj, short, l) :: Load(adj, p, l) <= cap[l]
  }

  /** Link `l` is full, and no bulk flow on it has a larger share of its wish `w` than flow f. */
  predicate Bottleneck(adj: seq<seq<nat>>, short: seq<bool>, cap: seq<real>, w: seq<real>, p: seq<real>, f: nat, l: nat)
    requires |adj| == |short| == |w| == |p| && f < |adj|
  {
    && l < |cap| && l in adj[f] && Load(adj, p, l) == cap[l]
    && forall g | 0 <= g < |adj| && !short[g] && l in adj[g] :: p[g] * w[f] <= p[f] * w[g]
  }

  ghost predicate Bottlenecked(adj: seq<seq<nat>>, short: seq<bool>, cap: seq<real>, w: seq<real>, p: seq<real>)
    requires |adj| == |short| == |w| == |p|
  {
    forall f | 0 <= f < |adj| && !short[f] :: exists l :: Bottleneck(adj, short, cap, w, p, f, l)
  }

  /** No flow can get more without taking from one that has no larger share of its wish: whatever other rates
      fit the links and leave the short flows alone. */
  ghost predicate MaxMinFair(adj: seq<seq<nat>>, short: seq<bool>, cap: seq<real>, w: seq<real>, p: seq<real>)
    requires |adj| == |short| == |w| == |p|
  {
    forall q: seq<real>, f: nat ::
      |q| == |p| && f < |p| && !short[f] && q[f] > p[f] && AllFit(adj, short, cap, q)
      && (forall g | 0 <= g < |p| && short[g] :: q[g] == p[g])
      ==> exists g | 0 <= g < |p| :: !short[g] && q[g] < p[g] && p[g] * w[f] <= p[f] * w[g]
  }

  lemma BottlenecksAreFair(adj: seq<seq<nat>>, short: seq<bool>, cap: seq<real>, w: seq<real>, p: seq<real>)
    requires |adj| == |short| == |w| == |p| && Bottlenecked(adj, short, cap, w, p)
    ensures MaxMinFair(adj, short, cap, w, p)
  {
    forall q: seq<real>, f: nat |
      |q| == |p| && f < |p| && !short[f] && q[f] > p[f] && AllFit(adj, short, cap, q)
      && (forall g | 0 <= g < |p| && short[g] :: q[g] == p[g])
      ensures exists g | 0 <= g < |p| :: !short[g] && q[g] < p[g] && p[g] * w[f] <= p[f] * w[g]
    {
      var l :| Bottleneck(adj, short, cap, w, p, f, l);
      LessRoom(adj, short, cap, p, q, f, l);
      var g := SomeShrinks(adj, p, q[f := p[f]], l);
      assert g != f;
    }
  }

  lemma LessRoom(adj: seq<seq<nat>>, short: seq<bool>, cap: seq<real>, p: seq<real>, q: seq<real>, f: nat, l: nat)
    requires |adj| == |short| == |p| == |q| && f < |adj| && !short[f] && l < |cap| && l in adj[f]
    requires AllFit(adj, short, cap, q) && Load(adj, p, l) == cap[l] && q[f] > p[f]
    ensures Load(adj, q[f := p[f]], l) < Load(adj, p, l)
  {
    hide Share;
    assert Bulky(adj, short, l);
    LoadUpdate(adj, q, f, p[f], l);
    ShareSign(adj[f], l, p[f] - q[f]);
  }
}
