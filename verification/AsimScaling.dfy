/** The iterative solver's `newupdate`: every bulk flow is scaled by the pressure of the most loaded link it crosses,
    link after link, so that the rates share the links in a weighted max-min fair way. Doubles are reals. */
module AsimScaling {
  import opened AsimLoads

  // ---------- which flows cross a link ----------

  function Repeat(f: nat, n: nat): (r: seq<nat>)
    ensures |r| == n && forall k | 0 <= k < n :: r[k] == f
  {
    if n == 0 then [] else Repeat(f, n - 1) + [f]
  }

  /** The flows crossing link `l`, each as often as its path lists the link. */
  function FlowsOn(adj: seq<seq<nat>>, l: nat): seq<nat> {
    if adj == [] then []
    else FlowsOn(adj[..|adj| - 1], l) + Repeat(|adj| - 1, Count(adj[|adj| - 1], l))
  }

  lemma {:induction false} FlowsOnExactly(adj: seq<seq<nat>>, l: nat, f: nat)
    ensures f in FlowsOn(adj, l) <==> f < |adj| && l in adj[f]
  {
    if adj != [] {
      var n := |adj| - 1;
      FlowsOnExactly(adj[..n], l, f);
      CountPositive(adj[n], l);
      var tail := Repeat(n, Count(adj[n], l));
      if l in adj[n] { assert tail[0] == n; }
      assert f in FlowsOn(adj, l) <==> f in FlowsOn(adj[..n], l) || f in tail;
    }
  }

  predicate InRange(adj: seq<seq<nat>>, links: nat) {
    forall f, k | 0 <= f < |adj| && 0 <= k < |adj[f]| :: adj[f][k] < links
  }

  /** What is left of the links for the flows not scaled yet, and what those flows ask of them. */
  ghost predicate Balanced(adj: seq<seq<nat>>, cap: seq<real>, p: seq<real>, marks: seq<bool>, uc: seq<real>, utput: seq<real>)
  {
    && |adj| == |p| == |marks| && |cap| == |uc| == |utput|
    && forall l | 0 <= l < |cap| ::
         && uc[l] == cap[l] - Load(adj, Part(p, marks, true), l)
         && utput[l] == Load(adj, Part(p, marks, false), l)
  }

  /** On every link what is asked beyond gamma times what is left has stayed the same. */
  ghost predicate SameGap(uc: seq<real>, utput: seq<real>, uc': seq<real>, utput': seq<real>, gamma: real) {
    && |uc| == |utput| == |uc'| == |utput'|
    && forall l | 0 <= l < |uc| :: utput'[l] - gamma * uc'[l] == utput[l] - gamma * uc[l]
  }

  lemma SameGapThen(uc: seq<real>, utput: seq<real>, uc': seq<real>, utput': seq<real>, uc'': seq<real>, utput'': seq<real>, gamma: real)
    requires SameGap(uc, utput, uc', utput', gamma) && SameGap(uc', utput', uc'', utput'', gamma)
    ensures SameGap(uc, utput, uc'', utput'', gamma)
  {
  }

  lemma SameGapStarts(uc: seq<real>, utput: seq<real>, gamma: real)
    requires |uc| == |utput|
    ensures SameGap(uc, utput, uc, utput, gamma)
  {
  }

  function Capacities(mu: seq<real>): (cap: seq<real>)
    ensures |cap| == |mu| && forall l | 0 <= l < |mu| :: cap[l] == mu[l] * 1.05
  {
    seq(|mu|, l requires 0 <= l < |mu| => mu[l] * 1.05)
  }

  function MarksAfter(short: seq<bool>, marks: seq<bool>, on: seq<nat>): (r: seq<bool>)
    requires |short| == |marks|
    ensures |r| == |marks| && forall f | 0 <= f < |r| :: r[f] == (marks[f] || (!short[f] && f in on))
  {
    seq(|marks|, f requires 0 <= f < |marks| && |short| == |marks| => marks[f] || (!short[f] && f in on))
  }

  function RatesAfter(short: seq<bool>, marks: seq<bool>, p: seq<real>, on: seq<nat>, gamma: real): (r: seq<real>)
    requires |short| == |marks| == |p| && gamma > 0.0
    ensures |r| == |p| && forall f | 0 <= f < |r| :: r[f] == if !short[f] && !marks[f] && f in on then p[f] / gamma else p[f]
  {
    seq(|p|, f requires 0 <= f < |p| && |short| == |marks| == |p| =>
      if !short[f] && !marks[f] && f in on then p[f] / gamma else p[f])
  }

  /** Taking one flow out of the pool at rate p[t] / gamma keeps the books balanced, and on every link keeps the
      difference between what is asked and gamma times what is left. */
  lemma ScaleKeepsBalance(adj: seq<seq<nat>>, cap: seq<real>, p: seq<real>, marks: seq<bool>, uc: seq<real>, utput: seq<real>,
                          t: nat, x: real, gamma: real, uc': seq<real>, utput': seq<real>)
    requires Balanced(adj, cap, p, marks, uc, utput) && t < |adj| && !marks[t] && p[t] == x * gamma
    requires |uc'| == |utput'| == |cap|
    requires forall l | 0 <= l < |cap| :: uc'[l] == uc[l] - Share(adj[t], l, x)
    requires forall l | 0 <= l < |cap| :: utput'[l] == utput[l] - Share(adj[t], l, x * gamma)
    ensures Balanced(adj, cap, p[t := x], marks[t := true], uc', utput')
    ensures SameGap(uc, utput, uc', utput', gamma)
  {
    hide Share, Load;
    var p', marks' := p[t := x], marks[t := true];
    assert Part(p', marks', true) == Part(p, marks, true)[t := x];
    assert Part(p', marks', false) == Part(p, marks, false)[t := 0.0];
    forall l | 0 <= l < |cap|
      ensures uc'[l] == cap[l] - Load(adj, Part(p', marks', true), l)
      ensures utput'[l] == Load(adj, Part(p', marks', false), l)
      ensures utput'[l] - gamma * uc'[l] == utput[l] - gamma * uc[l]
    {
      LoadUpdate(adj, Part(p, marks, true), t, x, l);
      LoadUpdate(adj, Part(p, marks, false), t, 0.0, l);
      ShareMinus(adj[t], l, 0.0, p[t]);
      ShareScaled(adj[t], l, x, gamma);
      Spread(uc[l], Share(adj[t], l, x), gamma);
    }
  }

  lemma Spread(a: real, b: real, k: real)
    ensures k * (a - b) == k * a - b * k
  {
  }

  // ---------- what a round keeps ----------

  /** Every short flow sends something or nothing; every bulk flow asks for something. */
  predicate Wishes(short: seq<bool>, w: seq<real>)
    requires |short| == |w|
  {
    forall f | 0 <= f < |w| :: if short[f] then w[f] >= 0.0 else w[f] > 0.0
  }

  /** The short flows leave room on every link that a bulk flow crosses. */
  predicate Roomy(adj: seq<seq<nat>>, short: seq<bool>, cap: seq<real>, w: seq<real>)
    requires |adj| == |short| == |w|
  {
    forall l | 0 <= l < |cap| && Bulky(adj, short, l) :: Load(adj, Part(w, short, true), l) < cap[l]
  }

  /** Flows not scaled yet, and short flows, still have the rate they came with; short flows count as scaled. */
  ghost predicate Untouched(short: seq<bool>, w: seq<real>, p: seq<real>, marks: seq<bool>)
  {
    && |short| == |w| == |p| == |marks|
    && (forall f | 0 <= f < |w| && short[f] :: marks[f])
    && (forall f | 0 <= f < |w| && (short[f] || !marks[f]) :: p[f] == w[f])
  }

  /** Moreover no bulk flow was scaled to nothing. */
  ghost predicate Pending(short: seq<bool>, w: seq<real>, p: seq<real>, marks: seq<bool>)
  {
    Untouched(short, w, p, marks) && Wishes(short, p)
  }

  /** Link `l` is used up, all its bulk flows are scaled, and none has a larger share of its wish than flow f. */
  ghost predicate UsedUp(adj: seq<seq<nat>>, short: seq<bool>, w: seq<real>, p: seq<real>, marks: seq<bool>, uc: seq<real>, f: nat, l: nat)
    requires |adj| == |short| == |w| == |p| == |marks| && f < |adj|
  {
    && l < |uc| && l in adj[f] && uc[l] == 0.0
    && forall g | 0 <= g < |adj| && !short[g] && l in adj[g] :: marks[g] && p[g] * w[f] <= p[f] * w[g]
  }

  ghost predicate Settled(adj: seq<seq<nat>>, short: seq<bool>, w: seq<real>, p: seq<real>, marks: seq<bool>, uc: seq<real>)
    requires |adj| == |short| == |w| == |p| == |marks|
  {
    forall f | 0 <= f < |adj| && !short[f] && marks[f] :: exists l :: UsedUp(adj, short, w, p, marks, uc, f, l)
  }

  ghost predicate Room(adj: seq<seq<nat>>, short: seq<bool>, uc: seq<real>, utput: seq<real>)
    requires |adj| == |short| && |uc| == |utput|
  {
    forall l | 0 <= l < |uc| && Bulky(adj, short, l) ::
      utput[l] >= 0.0 && uc[l] >= 0.0 && (uc[l] == 0.0 ==> utput[l] == 0.0)
  }

  /** No link with bulk flows is under more pressure than gamma. */
  ghost predicate Pressed(adj: seq<seq<nat>>, short: seq<bool>, uc: seq<real>, utput: seq<real>, gamma: real)
    requires |adj| == |short| && |uc| == |utput|
  {
    forall l | 0 <= l < |uc| && Bulky(adj, short, l) :: utput[l] <= gamma * uc[l]
  }

  /** The flows scaled so far were divided by gamma or more. */
  ghost predicate Capped(short: seq<bool>, w: seq<real>, p: seq<real>, marks: seq<bool>, gamma: real)
    requires |short| == |w| == |p| == |marks|
  {
    forall g | 0 <= g < |w| && !short[g] && marks[g] :: p[g] * gamma <= w[g]
  }

  /** `on` lists exactly the flows crossing link b. */
  ghost predicate Lists(adj: seq<seq<nat>>, b: nat, on: seq<nat>) {
    forall f :: f in on <==> 0 <= f < |adj| && b in adj[f]
  }

  lemma PendingKept(short: seq<bool>, w: seq<real>, p: seq<real>, marks: seq<bool>, on: seq<nat>, gamma: real)
    requires Pending(short, w, p, marks) && gamma > 0.0
    ensures Pending(short, w, RatesAfter(short, marks, p, on, gamma), MarksAfter(short, marks, on))
  {
    var p' := RatesAfter(short, marks, p, on, gamma);
    forall f | 0 <= f < |p| ensures if short[f] then p'[f] >= 0.0 else p'[f] > 0.0 {
      if !short[f] { Quotient(p[f], gamma); }
    }
  }

  lemma Quotient(x: real, gamma: real)
    requires gamma > 0.0
    ensures (x / gamma) * gamma == x && (x > 0.0 ==> x / gamma > 0.0)
  {
  }

  /** A link whose bulk flows are all scaled is asked for nothing more. */
  lemma NothingAsked(adj: seq<seq<nat>>, cap: seq<real>, p: seq<real>, marks: seq<bool>, uc: seq<real>, utput: seq<real>, l: nat)
    requires Balanced(adj, cap, p, marks, uc, utput) && l < |cap|
    requires forall f | 0 <= f < |adj| && l in adj[f] :: marks[f]
    ensures utput[l] == 0.0
  {
    hide Share;
    LoadZero(adj, Part(p, marks, false), l);
  }

  /** A link on which something is asked is crossed by a flow not scaled yet. */
  lemma SomeoneAsks(adj: seq<seq<nat>>, cap: seq<real>, p: seq<real>, marks: seq<bool>, uc: seq<real>, utput: seq<real>, l: nat)
    returns (f: nat)
    requires Balanced(adj, cap, p, marks, uc, utput) && l < |cap| && utput[l] != 0.0
    ensures f < |adj| && l in adj[f] && !marks[f]
  {
    if forall f | 0 <= f < |adj| && l in adj[f] :: marks[f] {
      NothingAsked(adj, cap, p, marks, uc, utput, l);
      assert false;
    }
    f :| 0 <= f < |adj| && l in adj[f] && !marks[f];
  }

  lemma AskedNonneg(adj: seq<seq<nat>>, short: seq<bool>, w: seq<real>, cap: seq<real>, p: seq<real>, marks: seq<bool>,
                    uc: seq<real>, utput: seq<real>, l: nat)
    requires Balanced(adj, cap, p, marks, uc, utput) && l < |cap| && Pending(short, w, p, marks)
    ensures utput[l] >= 0.0
    ensures forall f | 0 <= f < |adj| && l in adj[f] && !marks[f] :: utput[l] >= p[f]
  {
    hide Share;
    LoadNonneg(adj, Part(p, marks, false), l);
  }

  /** After a round nothing is left of the chosen link, nor of the links used up before. */
  lemma RoundEmpties(adj: seq<seq<nat>>, cap: seq<real>, p': seq<real>, marks': seq<bool>, uc: seq<real>, utput: seq<real>,
                     uc': seq<real>, utput': seq<real>, gamma: real, l: nat)
    requires Balanced(adj, cap, p', marks', uc', utput') && l < |cap| && gamma > 0.0 && |uc| == |utput| == |cap|
    requires SameGap(uc, utput, uc', utput', gamma) && utput[l] == gamma * uc[l]
    requires forall f | 0 <= f < |adj| && l in adj[f] :: marks'[f]
    ensures uc'[l] == 0.0
  {
    NothingAsked(adj, cap, p', marks', uc', utput', l);
    assert gamma * uc'[l] == 0.0;
  }

  lemma Lengths(adj: seq<seq<nat>>, short: seq<bool>, w: seq<real>, cap: seq<real>, p: seq<real>, marks: seq<bool>,
                uc: seq<real>, utput: seq<real>)
    requires Balanced(adj, cap, p, marks, uc, utput) && Pending(short, w, p, marks)
    ensures |adj| == |short| && |uc| == |utput| == |cap|
  {
  }

  lemma RoomKept(adj: seq<seq<nat>>, short: seq<bool>, w: seq<real>, cap: seq<real>, p': seq<real>, marks': seq<bool>,
                 uc: seq<real>, utput: seq<real>, uc': seq<real>, utput': seq<real>, gamma: real)
    requires Balanced(adj, cap, p', marks', uc', utput') && Pending(short, w, p', marks')
    requires gamma > 0.0 && |uc| == |utput| == |cap| && Pressed(adj, short, uc, utput, gamma)
    requires SameGap(uc, utput, uc', utput', gamma)
    ensures Room(adj, short, uc', utput') && Pressed(adj, short, uc', utput', gamma)
  {
    hide Bulky, Balanced, Pending;
    Lengths(adj, short, w, cap, p', marks', uc', utput');
    forall l | 0 <= l < |uc'| && Bulky(adj, short, l)
      ensures utput'[l] <= gamma * uc'[l]
      ensures utput'[l] >= 0.0 && uc'[l] >= 0.0 && (uc'[l] == 0.0 ==> utput'[l] == 0.0)
    {
      AskedNonneg(adj, short, w, cap, p', marks', uc', utput', l);
      Positive(gamma, uc'[l]);
    }
  }

  lemma Positive(k: real, x: real)
    requires k > 0.0
    ensures k * x >= 0.0 ==> x >= 0.0
  {
  }

  lemma CappedKept(short: seq<bool>, w: seq<real>, p: seq<real>, marks: seq<bool>, on: seq<nat>, gamma: real)
    requires Pending(short, w, p, marks) && gamma > 0.0 && Capped(short, w, p, marks, gamma)
    ensures Capped(short, w, RatesAfter(short, marks, p, on, gamma), MarksAfter(short, marks, on), gamma)
  {
    var p', marks' := RatesAfter(short, marks, p, on, gamma), MarksAfter(short, marks, on);
    forall g | 0 <= g < |w| && !short[g] && marks'[g] ensures p'[g] * gamma <= w[g] {
      if !marks[g] { Quotient(p[g], gamma); }
    }
  }

  /** Once gamma drops, the flows scaled so far were divided by no less than the new one. */
  lemma CappedBelow(short: seq<bool>, w: seq<real>, p: seq<real>, marks: seq<bool>, gamma: real, next: real)
    requires Pending(short, w, p, marks) && next <= gamma && Capped(short, w, p, marks, gamma)
    ensures Capped(short, w, p, marks, next)
  {
    forall g | 0 <= g < |w| && !short[g] && marks[g] ensures p[g] * next <= w[g] {
      Lower(p[g], gamma, next);
    }
  }

  lemma Lower(x: real, k: real, k': real)
    requires x >= 0.0 && k' <= k
    ensures x * k' <= x * k
  {
  }

  lemma SettledFrom(adj: seq<seq<nat>>, short: seq<bool>, w: seq<real>, p: seq<real>, marks: seq<bool>, uc: seq<real>)
    requires |adj| == |short| == |w| == |p| == |marks|
    requires forall f | 0 <= f < |adj| && !short[f] && marks[f] :: exists l :: UsedUp(adj, short, w, p, marks, uc, f, l)
    ensures Settled(adj, short, w, p, marks, uc)
  {
  }

  lemma SettledKept(adj: seq<seq<nat>>, short: seq<bool>, w: seq<real>, cap: seq<real>, p: seq<real>, marks: seq<bool>,
                    uc: seq<real>, utput: seq<real>, uc': seq<real>, utput': seq<real>, b: nat, on: seq<nat>, gamma: real)
    requires |adj| == |short| && Pending(short, w, p, marks) && Settled(adj, short, w, p, marks, uc)
    requires Capped(short, w, p, marks, gamma) && Lists(adj, b, on) && b < |cap| && gamma > 0.0
    requires Balanced(adj, cap, p, marks, uc, utput) && utput[b] == gamma * uc[b]
    requires Balanced(adj, cap, RatesAfter(short, marks, p, on, gamma), MarksAfter(short, marks, on), uc', utput')
    requires SameGap(uc, utput, uc', utput', gamma)
    ensures Settled(adj, short, w, RatesAfter(short, marks, p, on, gamma), MarksAfter(short, marks, on), uc')
  {
    hide Share;
    var p', marks' := RatesAfter(short, marks, p, on, gamma), MarksAfter(short, marks, on);
    hide Balanced, Settled, RatesAfter, MarksAfter;
    forall f | 0 <= f < |adj| && !short[f] && marks'[f] ensures exists l :: UsedUp(adj, short, w, p', marks', uc', f, l) {
      if marks[f] {
        StillUsedUp(adj, short, w, cap, p, marks, uc, utput, uc', utput', on, gamma, f);
      } else {
        NowUsedUp(adj, short, w, cap, p, marks, uc, utput, uc', utput', b, on, gamma, f);
      }
    }
    SettledFrom(adj, short, w, p', marks', uc');
  }

  lemma StillUsedUp(adj: seq<seq<nat>>, short: seq<bool>, w: seq<real>, cap: seq<real>, p: seq<real>, marks: seq<bool>,
                    uc: seq<real>, utput: seq<real>, uc': seq<real>, utput': seq<real>, on: seq<nat>, gamma: real, f: nat)
    requires |adj| == |short| && Pending(short, w, p, marks) && Settled(adj, short, w, p, marks, uc) && gamma > 0.0
    requires Balanced(adj, cap, p, marks, uc, utput) && f < |adj| && !short[f] && marks[f]
    requires Balanced(adj, cap, RatesAfter(short, marks, p, on, gamma), MarksAfter(short, marks, on), uc', utput')
    requires SameGap(uc, utput, uc', utput', gamma)
    ensures exists l :: UsedUp(adj, short, w, RatesAfter(short, marks, p, on, gamma), MarksAfter(short, marks, on), uc', f, l)
  {
    hide SameGap;
    var p', marks' := RatesAfter(short, marks, p, on, gamma), MarksAfter(short, marks, on);
    var l :| UsedUp(adj, short, w, p, marks, uc, f, l);
    NothingAsked(adj, cap, p, marks, uc, utput, l);
    RoundEmpties(adj, cap, p', marks', uc, utput, uc', utput', gamma, l);
    assert UsedUp(adj, short, w, p', marks', uc', f, l);
  }

  lemma NowUsedUp(adj: seq<seq<nat>>, short: seq<bool>, w: seq<real>, cap: seq<real>, p: seq<real>, marks: seq<bool>,
                  uc: seq<real>, utput: seq<real>, uc': seq<real>, utput': seq<real>, b: nat, on: seq<nat>, gamma: real, f: nat)
    requires |adj| == |short| && Pending(short, w, p, marks) && Lists(adj, b, on) && b < |cap| && gamma > 0.0
    requires Capped(short, w, p, marks, gamma) && |uc| == |utput| == |cap| && utput[b] == gamma * uc[b]
    requires Balanced(adj, cap, RatesAfter(short, marks, p, on, gamma), MarksAfter(short, marks, on), uc', utput')
    requires SameGap(uc, utput, uc', utput', gamma)
    requires f < |adj| && !short[f] && !marks[f] && MarksAfter(short, marks, on)[f]
    ensures UsedUp(adj, short, w, RatesAfter(short, marks, p, on, gamma), MarksAfter(short, marks, on), uc', f, b)
  {
    var p', marks' := RatesAfter(short, marks, p, on, gamma), MarksAfter(short, marks, on);
    RoundEmpties(adj, cap, p', marks', uc, utput, uc', utput', gamma, b);
    hide Balanced, Capped;
    forall g | 0 <= g < |adj| && !short[g] && b in adj[g] ensures marks'[g] && p'[g] * w[f] <= p'[f] * w[g] {
      NewShares(short, w, p, marks, on, gamma, f, g);
    }
  }

  /** A flow scaled in this round has the smallest share given out so far. */
  lemma NewShares(short: seq<bool>, w: seq<real>, p: seq<real>, marks: seq<bool>, on: seq<nat>, gamma: real, f: nat, g: nat)
    requires Pending(short, w, p, marks) && Capped(short, w, p, marks, gamma) && gamma > 0.0 && f < |p| && g < |p|
    requires !short[f] && !marks[f] && f in on && !short[g] && (marks[g] || g in on)
    ensures var p' := RatesAfter(short, marks, p, on, gamma); p'[g] * w[f] <= p'[f] * w[g]
  {
    var p' := RatesAfter(short, marks, p, on, gamma);
    Quotient(p[f], gamma);
    Quotient(p[g], gamma);
    SmallerShare(p'[g], w[g], p'[f], w[f], gamma);
  }

  lemma SmallerShare(x: real, y: real, u: real, v: real, k: real)
    requires x * k <= y && v == u * k && u >= 0.0
    ensures x * v <= u * y
  {
    assert (y - x * k) * u >= 0.0;
  }

  // ---------- the ends of a run ----------

  /** Nothing is asked any more: every flow is scaled, and the loads are what the books say. */
  lemma AllScaled(adj: seq<seq<nat>>, short: seq<bool>, w: seq<real>, cap: seq<real>, p: seq<real>, marks: seq<bool>,
                  uc: seq<real>, utput: seq<real>)
    requires Pending(short, w, p, marks) && Balanced(adj, cap, p, marks, uc, utput)
    requires InRange(adj, |cap|) && forall f | 0 <= f < |adj| :: adj[f] != []
    requires forall l | 0 <= l < |cap| && Bulky(adj, short, l) :: utput[l] <= 0.0
    ensures forall f | 0 <= f < |adj| :: marks[f]
    ensures forall l | 0 <= l < |cap| :: Load(adj, p, l) == cap[l] - uc[l]
  {
    hide Share;
    forall f | 0 <= f < |adj| ensures marks[f] {
      if !marks[f] {
        var l := adj[f][0];
        assert l in adj[f] && Bulky(adj, short, l);
        AskedNonneg(adj, short, w, cap, p, marks, uc, utput, l);
        assert false;
      }
    }
    assert Part(p, marks, true) == p;
  }

  lemma SettledIsBottlenecked(adj: seq<seq<nat>>, short: seq<bool>, w: seq<real>, cap: seq<real>, p: seq<real>, marks: seq<bool>,
                              uc: seq<real>)
    requires |adj| == |short| == |w| == |p| == |marks| && |cap| == |uc| && Settled(adj, short, w, p, marks, uc)
    requires forall f | 0 <= f < |adj| :: marks[f]
    requires forall l | 0 <= l < |cap| :: Load(adj, p, l) == cap[l] - uc[l]
    ensures Bottlenecked(adj, short, cap, w, p)
  {
    forall f | 0 <= f < |adj| && !short[f] ensures exists l :: Bottleneck(adj, short, cap, w, p, f, l) {
      var l :| UsedUp(adj, short, w, p, marks, uc, f, l);
      assert Bottleneck(adj, short, cap, w, p, f, l);
    }
  }

  /** Where short flows leave no room for bulk flows, no positive rates fit. */
  lemma NoRoomNoFit(adj: seq<seq<nat>>, short: seq<bool>, cap: seq<real>, w: seq<real>, p: seq<real>)
    requires |adj| == |short| == |w| == |p| && Wishes(short, p) && !Roomy(adj, short, cap, w)
    requires forall f | 0 <= f < |w| && short[f] :: p[f] == w[f]
    ensures !AllFit(adj, short, cap, p)
  {
    hide Share;
    var l :| 0 <= l < |cap| && Bulky(adj, short, l) && Load(adj, Part(w, short, true), l) >= cap[l];
    var f :| 0 <= f < |adj| && !short[f] && l in adj[f];
    assert Part(p, short, true) == Part(w, short, true);
    LoadParts(adj, p, short, l);
    LoadNonneg(adj, Part(p, short, false), l);
    assert Part(p, short, false)[f] == p[f];
  }
}
