/** The solver's tables of links and flows, and the loops over them. */
module AsimSolver {
  import opened AsimLoads
  import opened AsimScaling

  /** One round of the scaling loop: the link chosen and the factor its flows were divided by. */
  datatype Round = Round(link: nat, gamma: real)

  predicate Distinct(rounds: seq<Round>) {
    forall i, j | 0 <= i < j < |rounds| :: rounds[i].link != rounds[j].link
  }

  predicate Falling(rounds: seq<Round>) {
    forall i, j | 0 <= i < j < |rounds| :: rounds[i].gamma >= rounds[j].gamma
  }

  function Chosen(rounds: seq<Round>): (links: set<nat>)
    ensures forall l :: l in links <==> exists i | 0 <= i < |rounds| :: rounds[i].link == l
  {
    if rounds == [] then {} else
      var n := |rounds| - 1;
      assert rounds == rounds[..n] + [rounds[n]];
      Chosen(rounds[..n]) + {rounds[n].link}
  }

  function Below(n: nat): (numbers: set<nat>)
    ensures |numbers| == n && forall k: nat :: k in numbers <==> k < n
  {
    if n == 0 then {} else Below(n - 1) + {n - 1}
  }

  lemma {:induction false} AllCounted(rounds: seq<Round>)
    requires Distinct(rounds)
    ensures |Chosen(rounds)| == |rounds|
  {
    if rounds != [] {
      var n := |rounds| - 1;
      AllCounted(rounds[..n]);
      assert rounds[n].link !in Chosen(rounds[..n]);
    }
  }

  lemma {:induction false} SubsetSize(a: set<nat>, b: set<nat>)
    requires a <= b
    ensures |a| <= |b|
  {
    if a != {} {
      var x :| x in a;
      SubsetSize(a - {x}, b - {x});
    }
  }

  /** Rounds for different links are no more than the links. */
  lemma FewRounds(rounds: seq<Round>, links: nat)
    requires Distinct(rounds) && forall i | 0 <= i < |rounds| :: rounds[i].link < links
    ensures |rounds| <= links
  {
    AllCounted(rounds);
    SubsetSize(Chosen(rounds), Below(links));
  }

  /** Link `bneck` is the first of those under most pressure, gamma; or -1 if no link is under pressure. */
  ghost predicate Top(uc: seq<real>, utput: seq<real>, bneck: int, gamma: real)
  {
    && |uc| == |utput| && -1 <= bneck < |uc|
    && (forall l | 0 <= l < |uc| && uc[l] != 0.0 :: utput[l] / uc[l] <= gamma)
    && (forall l | 0 <= l < bneck && uc[l] != 0.0 :: utput[l] / uc[l] < gamma)
    && if bneck == -1 then gamma == 0.0 else gamma > 0.0 && uc[bneck] != 0.0 && gamma == utput[bneck] / uc[bneck]
  }

  class Solver {
    const adj: seq<seq<nat>>
    const short: seq<bool>
    const mu: seq<real>
    var theflows: seq<seq<nat>>
    const uc: array<real>
    const utput: array<real>
    const tlambda: array<real>
    const lambda: array<real>
    const plambda: array<real>
    const tput: array<real>
    const scaled: array<bool>

    /** The tables fit together, and every flow has a path over known links. */
    ghost predicate Shape()
    {
      && |adj| == |short| == tput.Length == scaled.Length
      && |mu| == uc.Length == utput.Length == tlambda.Length == lambda.Length == plambda.Length
      && uc != utput && uc != tlambda && uc != lambda && uc != plambda && uc != tput
      && utput != tlambda && utput != lambda && utput != plambda && utput != tput
      && tlambda != lambda && tlambda != plambda && tlambda != tput
      && lambda != plambda && lambda != tput && plambda != tput
      && InRange(adj, |mu|) && (forall f | 0 <= f < |adj| :: adj[f] != [])
    }

    ghost predicate Valid()
      reads this
    {
      Shape() && |theflows| == |mu| && forall l | 0 <= l < |mu| :: theflows[l] == FlowsOn(adj, l)
    }

    /** Builds the tables from what was read in: the paths, which flows are short, the speed of the links, the rates of
        the flows, and the rate estimates of the links, to which the bursts of the short flows are added. */
    constructor (adj: seq<seq<nat>>, short: seq<bool>, mu: seq<real>, rates: seq<real>, bursts: seq<real>, estimates: seq<real>)
      requires |adj| == |short| == |rates| == |bursts| && |mu| == |estimates|
      requires InRange(adj, |mu|) && forall f | 0 <= f < |adj| :: adj[f] != []
      ensures Valid() && this.adj == adj && this.short == short && this.mu == mu && tput[..] == rates
      ensures fresh(uc) && fresh(utput) && fresh(tlambda) && fresh(lambda) && fresh(plambda) && fresh(tput) && fresh(scaled)
      ensures forall l | 0 <= l < |mu| :: lambda[l] == estimates[l] + Load(adj, Part(bursts, short, true), l)
    {
      hide Load, FlowsOn, Part;
      this.adj, this.short, this.mu := adj, short, mu;
      theflows := [];
      uc, utput, tlambda, plambda := new real[|mu|], new real[|mu|], new real[|mu|], new real[|mu|];
      lambda := new real[|mu|](l requires 0 <= l < |mu| && |mu| == |estimates| => estimates[l]);
      tput := new real[|adj|](f requires 0 <= f < |adj| && |adj| == |rates| => rates[f]);
      scaled := new bool[|adj|];
      new;
      var i := 0;
      while i < |mu|
        invariant i <= |mu| && |theflows| == i && tput[..] == rates
        invariant forall l | 0 <= l < i :: theflows[l] == FlowsOn(adj, l)
        invariant forall l | 0 <= l < i :: lambda[l] == estimates[l] + Load(adj, Part(bursts, short, true), l)
        invariant forall l | i <= l < |mu| :: lambda[l] == estimates[l]
      {
        tlambda[i] := 0.0;
        var flows := IndexLink(i, bursts);
        theflows := theflows + [flows];
        i := i + 1;
      }
    }

    /** Counts the flows crossing link i, then stores them, adding up what the short ones among them send. */
    method IndexLink(i: nat, bursts: seq<real>) returns (flows: seq<nat>)
      requires Shape() && i < |mu| && |bursts| == |adj|
      modifies lambda
      ensures flows == FlowsOn(adj, i)
      ensures lambda[i] == old(lambda[i]) + Load(adj, Part(bursts, short, true), i)
      ensures forall l | 0 <= l < |mu| && l != i :: lambda[l] == old(lambda[l])
    {
      hide Share, Load;
      var c := CountFlows(i);
      if c == 0 {
        forall f | 0 <= f < |adj| ensures i !in adj[f] {
          FlowsOnExactly(adj, i, f);
        }
        LoadZero(adj, Part(bursts, short, true), i);
        return [];
      }
      var list := new nat[c];
      c := 0;
      ghost var w := Part(bursts, short, true);
      var j := 0;
      LoadNone(adj, w, i);
      while j < |adj|
        invariant j <= |adj| && c == |FlowsOn(adj[..j], i)| <= list.Length == |FlowsOn(adj, i)|
        invariant list[..c] == FlowsOn(adj[..j], i)
        invariant lambda[i] == old(lambda[i]) + Load(adj[..j], w[..j], i)
        invariant forall l | 0 <= l < |mu| && l != i :: lambda[l] == old(lambda[l])
      {
        FlowsOnGrows(adj, i, j);
        LoadGrows(adj, w, j, i);
        c := StoreFlow(i, j, list, c, bursts);
        ShareMinus(adj[j], i, 0.0, 0.0);
        j := j + 1;
      }
      assert adj[..j] == adj && w[..j] == w && list[..c] == list[..];
      flows := list[..];
    }

    /** Stores flow j once for every time its path lists link i. */
    method StoreFlow(i: nat, j: nat, list: array<nat>, start: nat, bursts: seq<real>) returns (c: nat)
      requires Shape() && i < |mu| && j < |adj| == |bursts| && start + Count(adj[j], i) <= list.Length
      modifies list, lambda
      ensures c == start + Count(adj[j], i) && list[..c] == old(list[..start]) + Repeat(j, Count(adj[j], i))
      ensures lambda[i] == old(lambda[i]) + if short[j] then Share(adj[j], i, bursts[j]) else 0.0
      ensures forall l | 0 <= l < |mu| && l != i :: lambda[l] == old(lambda[l])
    {
      hide Share;
      Start(adj[j], bursts[j]);
      c := start;
      var k := 0;
      while k < |adj[j]|
        invariant k <= |adj[j]| && c == start + Count(adj[j][..k], i) && Count(adj[j][..k], i) <= Count(adj[j], i)
        invariant list[..c] == old(list[..start]) + Repeat(j, Count(adj[j][..k], i))
        invariant lambda[i] == old(lambda[i]) + if short[j] then Share(adj[j][..k], i, bursts[j]) else 0.0
        invariant forall l | 0 <= l < |mu| && l != i :: lambda[l] == old(lambda[l])
      {
        CountGrows(adj[j], k, i);
        Step(adj[j], k, bursts[j]);
        if adj[j][k] == i {
          if short[j] {
            lambda[i] := lambda[i] + bursts[j];
          }
          list[c] := j;
          c := c + 1;
        }
        k := k + 1;
      }
      assert adj[j][..k] == adj[j];
    }

    /** How many times the paths list link i. */
    method CountFlows(i: nat) returns (c: nat)
      ensures c == |FlowsOn(adj, i)|
    {
      c := 0;
      var j := 0;
      while j < |adj|
        invariant j <= |adj| && c == |FlowsOn(adj[..j], i)|
      {
        FlowsOnGrows(adj, i, j);
        var k := 0;
        while k < |adj[j]|
          invariant k <= |adj[j]| && c == |FlowsOn(adj[..j], i)| + Count(adj[j][..k], i)
        {
          CountGrows(adj[j], k, i);
          if adj[j][k] == i {
            c := c + 1;
          }
          k := k + 1;
        }
        assert adj[j][..k] == adj[j];
        j := j + 1;
      }
      assert adj[..j] == adj;
    }

    ghost function Cap(): (cap: seq<real>)
      ensures |cap| == |mu|
    {
      Capacities(mu)
    }

    /** Takes a short flow's rate off the capacity of its links, or adds a bulk flow's rate to what is asked. */
    method Charge(i: nat)
      requires Shape() && i < |adj|
      modifies uc, utput
      ensures forall l | 0 <= l < |mu| ::
        && uc[l] == old(uc[l]) - (if short[i] then Share(adj[i], l, tput[i]) else 0.0)
        && utput[l] == old(utput[l]) + (if short[i] then 0.0 else Share(adj[i], l, tput[i]))
    {
      Start(adj[i], tput[i]);
      hide Share;
      var j := 0;
      while j < |adj[i]|
        invariant j <= |adj[i]|
        invariant forall l | 0 <= l < |mu| ::
          && uc[l] == old(uc[l]) - (if short[i] then Share(adj[i][..j], l, tput[i]) else 0.0)
          && utput[l] == old(utput[l]) + (if short[i] then 0.0 else Share(adj[i][..j], l, tput[i]))
      {
        Step(adj[i], j, tput[i]);
        var l := adj[i][j];
        if short[i] {
          uc[l] := uc[l] - tput[i];
        } else {
          utput[l] := utput[l] + tput[i];
        }
        j := j + 1;
      }
      assert adj[i][..j] == adj[i];
    }

    /** Resets every link to what its short flows leave and what its bulk flows ask. */
    method Prepare()
      requires Shape()
      modifies uc, utput, scaled
      ensures scaled[..] == short
      ensures Balanced(adj, Cap(), tput[..], scaled[..], uc[..], utput[..])
    {
      hide Share;
      var i := 0;
      while i < |mu|
        invariant i <= |mu|
        invariant forall l | 0 <= l < i :: uc[l] == Cap()[l] && utput[l] == 0.0
      {
        uc[i] := mu[i] * 1.05;
        utput[i] := 0.0;
        i := i + 1;
      }
      i := 0;
      while i < |adj|
        invariant i <= |adj|
        invariant forall f | 0 <= f < i :: scaled[f] == short[f]
        invariant forall l | 0 <= l < |mu| ::
          && uc[l] == Cap()[l] - Load(adj[..i], Part(tput[..i], short[..i], true), l)
          && utput[l] == Load(adj[..i], Part(tput[..i], short[..i], false), l)
      {
        scaled[i] := short[i];
        Charge(i);
        forall l, which | 0 <= l < |mu| {
          PartGrows(adj, tput[..], short, i, l, which);
        }
        i := i + 1;
      }
      assert scaled[..] == short && adj[..i] == adj && tput[..i] == tput[..] && short[..i] == short;
    }

    /** Finds the link under most pressure. */
    method Select() returns (bneck: int, gamma: real)
      requires Shape()
      ensures Top(uc[..], utput[..], bneck, gamma)
    {
      bneck, gamma := -1, 0.0;
      var i := 0;
      while i < |mu|
        invariant i <= |mu| && -1 <= bneck < i && gamma >= 0.0
        invariant forall l | 0 <= l < i && uc[l] != 0.0 :: utput[l] / uc[l] <= gamma
        invariant if bneck == -1 then gamma == 0.0 else gamma > 0.0 && uc[bneck] != 0.0 && gamma == utput[bneck] / uc[bneck]
        invariant forall l | 0 <= l < bneck && uc[l] != 0.0 :: utput[l] / uc[l] < gamma
      {
        if uc[i] != 0.0 {
          var t := utput[i] / uc[i];
          if t > gamma {
            bneck, gamma := i, t;
          }
        }
        i := i + 1;
      }
    }

    /** Takes a scaled flow's rate off every link of its path. */
    method TakeOff(t: nat, x: real, gamma: real)
      requires Shape() && t < |adj|
      modifies uc, utput
      ensures forall l | 0 <= l < |mu| :: uc[l] == old(uc[l]) - Share(adj[t], l, x)
      ensures forall l | 0 <= l < |mu| :: utput[l] == old(utput[l]) - Share(adj[t], l, x * gamma)
    {
      Start(adj[t], x);
      Start(adj[t], x * gamma);
      hide Share;
      var j := 0;
      while j < |adj[t]|
        invariant j <= |adj[t]|
        invariant forall l | 0 <= l < |mu| :: uc[l] == old(uc[l]) - Share(adj[t][..j], l, x)
        invariant forall l | 0 <= l < |mu| :: utput[l] == old(utput[l]) - Share(adj[t][..j], l, x * gamma)
      {
        Step(adj[t], j, x);
        Step(adj[t], j, x * gamma);
        var l := adj[t][j];
        uc[l] := uc[l] - x;
        utput[l] := utput[l] - x * gamma;
        j := j + 1;
      }
      assert adj[t][..j] == adj[t];
    }

    /** Scales one flow unless it is short or scaled already. */
    method ScaleFlow(t: nat, gamma: real)
      requires Shape() && t < |adj| && gamma > 0.0
      requires Balanced(adj, Cap(), tput[..], scaled[..], uc[..], utput[..])
      modifies uc, utput, tput, scaled
      ensures
        if !short[t] && !old(scaled[t])
        then tput[..] == old(tput[..])[t := old(tput[t]) / gamma] && scaled[..] == old(scaled[..])[t := true]
        else tput[..] == old(tput[..]) && scaled[..] == old(scaled[..])
      ensures Balanced(adj, Cap(), tput[..], scaled[..], uc[..], utput[..])
      ensures SameGap(old(uc[..]), old(utput[..]), uc[..], utput[..], gamma)
    {
      hide SameGap;
      SameGapStarts(uc[..], utput[..], gamma);
      if !short[t] && !scaled[t] {
        ghost var p, marks, uc0, utput0 := tput[..], scaled[..], uc[..], utput[..];
        Quotient(tput[t], gamma);
        tput[t] := tput[t] / gamma;
        scaled[t] := true;
        ghost var x := tput[t];
        TakeOff(t, tput[t], gamma);
        assert tput[..] == p[t := x] && scaled[..] == marks[t := true];
        ScaleKeepsBalance(adj, Cap(), p, marks, uc0, utput0, t, x, gamma, uc[..], utput[..]);
      }
    }

    /** Scales every bulk flow on link b that is not scaled yet. */
    method ScaleLink(b: nat, gamma: real)
      requires Valid() && b < |mu| && gamma > 0.0
      requires Balanced(adj, Cap(), tput[..], scaled[..], uc[..], utput[..])
      modifies uc, utput, tput, scaled
      ensures tput[..] == RatesAfter(short, old(scaled[..]), old(tput[..]), FlowsOn(adj, b), gamma)
      ensures scaled[..] == MarksAfter(short, old(scaled[..]), FlowsOn(adj, b))
      ensures Balanced(adj, Cap(), tput[..], scaled[..], uc[..], utput[..])
      ensures SameGap(old(uc[..]), old(utput[..]), uc[..], utput[..], gamma)
    {
      hide Balanced, FlowsOn, SameGap, RatesAfter, MarksAfter, Lists, Share;
      ghost var on := FlowsOn(adj, b);
      ghost var p, marks, uc0, utput0 := tput[..], scaled[..], uc[..], utput[..];
      SameGapStarts(uc0, utput0, gamma);
      NoneYet(short, marks, p, on, gamma);
      var i := 0;
      while i < |theflows[b]|
        invariant i <= |on|
        invariant tput[..] == RatesAfter(short, marks, p, on[..i], gamma)
        invariant scaled[..] == MarksAfter(short, marks, on[..i])
        invariant Balanced(adj, Cap(), tput[..], scaled[..], uc[..], utput[..])
        invariant SameGap(uc0, utput0, uc[..], utput[..], gamma)
      {
        var t := theflows[b][i];
        FlowsOnExactly(adj, b, t);
        OneMore(short, marks, p, on, i, gamma);
        ghost var uc1, utput1 := uc[..], utput[..];
        ScaleFlow(t, gamma);
        SameGapThen(uc0, utput0, uc1, utput1, uc[..], utput[..], gamma);
        i := i + 1;
      }
      assert on[..i] == on;
    }

    /** Adds up what the flows send on every link; with `flag` only of those not scaled. */
    method UpdateHelper(flag: bool)
      requires Shape()
      modifies tlambda
      ensures forall l | 0 <= l < |mu| ::
        tlambda[l] == Load(adj, if flag then Part(tput[..], scaled[..], false) else tput[..], l)
    {
      hide Share;
      var i := 0;
      while i < |mu|
        invariant i <= |mu| && forall l | 0 <= l < i :: tlambda[l] == 0.0
      {
        tlambda[i] := 0.0;
        i := i + 1;
      }
      ghost var w := if flag then Part(tput[..], scaled[..], false) else tput[..];
      i := 0;
      while i < |adj|
        invariant i <= |adj|
        invariant forall l | 0 <= l < |mu| :: tlambda[l] == Load(adj[..i], w[..i], l)
      {
        ghost var before := tlambda[..];
        if !flag || !scaled[i] {
          Start(adj[i], tput[i]);
          var j := 0;
          while j < |adj[i]|
            invariant j <= |adj[i]|
            invariant forall l | 0 <= l < |mu| :: tlambda[l] == before[l] + Share(adj[i][..j], l, tput[i])
          {
            Step(adj[i], j, tput[i]);
            var l := adj[i][j];
            tlambda[l] := tlambda[l] + tput[i];
            j := j + 1;
          }
          assert adj[i][..j] == adj[i];
        }
        forall l | 0 <= l < |mu| ensures tlambda[l] == Load(adj[..i + 1], w[..i + 1], l) {
          LoadGrows(adj, w, i, l);
          ShareMinus(adj[i], l, 0.0, 0.0);
        }
        i := i + 1;
      }
      assert adj[..i] == adj && w[..i] == w;
    }

    /** Moves the rate estimate of every link half way to the load on it; a load far over the link counts as 1.1 mu. */
    method Update(niter: int)
      requires Shape()
      modifies tlambda, lambda, plambda
      ensures plambda[..] == old(lambda[..])
      ensures forall l | 0 <= l < |mu| :: tlambda[l] == Load(adj, tput[..], l)
      ensures forall l | 0 <= l < |mu| :: lambda[l] == Blend(niter, old(lambda[..])[l], tlambda[l], mu[l])
    {
      UpdateHelper(false);
      hide Load;
      var i := 0;
      while i < |mu|
        invariant i <= |mu|
        invariant forall l | 0 <= l < i :: plambda[l] == old(lambda[..])[l]
        invariant forall l | i <= l < |mu| :: lambda[l] == old(lambda[..])[l]
        invariant forall l | 0 <= l < i :: lambda[l] == Blend(niter, old(lambda[..])[l], tlambda[l], mu[l])
        invariant forall l | 0 <= l < |mu| :: tlambda[l] == Load(adj, tput[..], l)
      {
        plambda[i] := lambda[i];
        var t;
        var tk := mu[i] * 1.1;
        if niter != 0 {
          if tlambda[i] > tk {
            t := (lambda[i] + tk) / 2.0;
          } else {
            t := (tlambda[i] + lambda[i]) / 2.0;
          }
        } else {
          t := tlambda[i];
        }
        lambda[i] := t;
        i := i + 1;
      }
    }

    /** The round for link b: scales its flows and writes it off. Rates `w` are those the run began with. */
    method RunRound(b: nat, gamma: real, ghost w: seq<real>, ghost rounds: seq<Round>)
      requires Valid() && b < |mu| && Top(uc[..], utput[..], b, gamma)
      requires Books(adj, short, Cap(), w, tput[..], scaled[..], uc[..], utput[..], rounds)
      modifies uc, utput, tput, scaled
      ensures Books(adj, short, Cap(), w, tput[..], scaled[..], uc[..], utput[..], rounds + [Round(b, gamma)])
      ensures old(Pending(short, w, tput[..], scaled[..])) ==> Pending(short, w, tput[..], scaled[..])
      ensures
        old(GoodBooks(adj, short, w, tput[..], scaled[..], uc[..], utput[..], gamma))
        ==> GoodBooks(adj, short, w, tput[..], scaled[..], uc[..], utput[..], gamma)
    {
      hide Balanced, Untouched, FlowsOn, RatesAfter, MarksAfter, Pending, GoodBooks, Books, Share, Top, SameGap;
      ghost var on := FlowsOn(adj, b);
      ghost var p, marks, uc0, utput0 := tput[..], scaled[..], uc[..], utput[..];
      Under(uc0, utput0, b, gamma);
      InBooks(adj, short, Cap(), w, p, marks, uc0, utput0, rounds);
      ScaleLink(b, gamma);
      ghost var p', marks', uc', utput' := tput[..], scaled[..], uc[..], utput[..];
      BooksKept(adj, short, Cap(), w, p, marks, uc0, utput0, rounds, b, gamma, uc', utput');
      if Pending(short, w, p, marks) {
        PendingKept(short, w, p, marks, on, gamma);
      }
      if GoodBooks(adj, short, w, p, marks, uc0, utput0, gamma) {
        GoodBooksKept(adj, short, Cap(), w, p, marks, uc0, utput0, rounds, b, gamma, uc', utput');
      }
      uc[b] := 0.0;
      assert uc[..] == uc';
    }

    /** The scaling. Every link is chosen at most once, so the loop ends. Short flows keep their rates. When the bulk
        flows ask for something, the new rates fit the links they use exactly if the short flows left room there before;
        then the rates are max-min fair, weighted by what was asked. */
    method ScaleAll() returns (ghost rounds: seq<Round>)
      requires Valid()
      modifies uc, utput, tput, scaled
      ensures Distinct(rounds) && |rounds| <= |mu|
      ensures forall f | 0 <= f < |adj| && short[f] :: tput[f] == old(tput[..])[f]
      ensures Wishes(short, old(tput[..])) ==>
        && Wishes(short, tput[..])
        && (AllFit(adj, short, Cap(), tput[..]) <==> Roomy(adj, short, Cap(), old(tput[..])))
      ensures Wishes(short, old(tput[..])) && Roomy(adj, short, Cap(), old(tput[..])) ==>
        && Falling(rounds)
        && Bottlenecked(adj, short, Cap(), old(tput[..]), tput[..])
        && MaxMinFair(adj, short, Cap(), old(tput[..]), tput[..])
    {
      ghost var w := tput[..];
      ghost var positive, good := Wishes(short, w), Wishes(short, w) && Roomy(adj, short, Cap(), w);
      hide Share, Load, FlowsOn, Wishes, Roomy, Pending, GoodBooks, Bottlenecked, MaxMinFair, AllFit;
      Prepare();
      rounds := [];
      assert Distinct(rounds) && Falling(rounds);
      assert Books(adj, short, Cap(), w, tput[..], scaled[..], uc[..], utput[..], rounds);
      hide Books, Balanced, Top, Distinct, Falling, Capacities;
      var bneck, maxgamma := Select();
      Bounded(uc[..], utput[..], bneck, maxgamma);
      if positive {
        FirstBooks(adj, short, Cap(), w, uc[..], utput[..], bneck, maxgamma);
      }
      while bneck + 1 != 0
        invariant -1 <= bneck < |mu| && Distinct(rounds) && |rounds| <= |mu|
        invariant Books(adj, short, Cap(), w, tput[..], scaled[..], uc[..], utput[..], rounds)
        invariant Top(uc[..], utput[..], bneck, maxgamma)
        invariant positive ==> Pending(short, w, tput[..], scaled[..])
        invariant good ==> GoodBooks(adj, short, w, tput[..], scaled[..], uc[..], utput[..], maxgamma)
        invariant good ==> Falling(rounds) && forall r | r in rounds :: r.gamma >= maxgamma
        decreases |mu| - |rounds|
      {
        ghost var gamma := maxgamma;
        RunRound(bneck, maxgamma, w, rounds);
        ghost var rounds' := rounds + [Round(bneck, maxgamma)];
        RoundsLimited(adj, short, Cap(), w, tput[..], scaled[..], uc[..], utput[..], rounds');
        if good {
          FallingOn(rounds, Round(bneck, maxgamma));
        }
        rounds := rounds';
        bneck, maxgamma := Select();
        Bounded(uc[..], utput[..], bneck, maxgamma);
        if good {
          NextBooks(adj, short, Cap(), w, tput[..], scaled[..], uc[..], utput[..], rounds, gamma, bneck, maxgamma);
        }
      }
      LastBooks(adj, short, Cap(), w, tput[..], scaled[..], uc[..], utput[..], rounds, maxgamma);
    }

    /** The whole computation: new rates for the bulk flows, then new rate estimates for the links. A link the bulk
        flows use is never cut off at 1.1 mu when there was room on it. */
    method NewUpdate(niter: int) returns (ghost rounds: seq<Round>)
      requires Valid()
      modifies uc, utput, tput, scaled, tlambda, lambda, plambda
      ensures Distinct(rounds) && |rounds| <= |mu|
      ensures forall f | 0 <= f < |adj| && short[f] :: tput[f] == old(tput[..])[f]
      ensures Wishes(short, old(tput[..])) ==>
        && Wishes(short, tput[..])
        && (AllFit(adj, short, Cap(), tput[..]) <==> Roomy(adj, short, Cap(), old(tput[..])))
      ensures Wishes(short, old(tput[..])) && Roomy(adj, short, Cap(), old(tput[..])) ==>
        && Falling(rounds)
        && MaxMinFair(adj, short, Cap(), old(tput[..]), tput[..])
        && forall l | 0 <= l < |mu| && Bulky(adj, short, l) ::
             lambda[l] == if niter == 0 then tlambda[l] else (tlambda[l] + old(lambda[..])[l]) / 2.0
      ensures forall l | 0 <= l < |mu| :: tlambda[l] == Load(adj, tput[..], l)
      ensures forall l | 0 <= l < |mu| :: lambda[l] == Blend(niter, old(lambda[..])[l], tlambda[l], mu[l])
      ensures plambda[..] == old(lambda[..])
    {
      ghost var w := tput[..];
      hide Share, Load, Wishes, Roomy, Bottlenecked, MaxMinFair, AllFit, Bulky, FlowsOn;
      rounds := ScaleAll();
      ghost var p := tput[..];
      Update(niter);
      assert tput[..] == p;
      if Wishes(short, w) && Roomy(adj, short, Cap(), w) {
        forall l | 0 <= l < |mu| && Bulky(adj, short, l) ensures tlambda[l] <= mu[l] * 1.1 {
          NeverCutOff(adj, short, mu, w, p, l);
        }
      }
    }
  }

  lemma NeverCutOff(adj: seq<seq<nat>>, short: seq<bool>, mu: seq<real>, w: seq<real>, p: seq<real>, l: nat)
    requires |adj| == |short| == |w| == |p| && l < |mu| && Bulky(adj, short, l) && Wishes(short, w)
    requires Roomy(adj, short, Capacities(mu), w) && AllFit(adj, short, Capacities(mu), p)
    ensures Load(adj, p, l) <= mu[l] * 1.1
  {
    hide Share;
    LoadNonneg(adj, Part(w, short, true), l);
  }

  /** What holds between rounds whatever the rates: links chosen before have nothing left and only scaled flows. */
  ghost predicate Books(adj: seq<seq<nat>>, short: seq<bool>, cap: seq<real>, w: seq<real>, p: seq<real>, marks: seq<bool>,
                        uc: seq<real>, utput: seq<real>, rounds: seq<Round>)
  {
    && Balanced(adj, cap, p, marks, uc, utput) && Untouched(short, w, p, marks) && Distinct(rounds)
    && forall r | r in rounds ::
         r.link < |cap| && uc[r.link] == 0.0 && forall f | 0 <= f < |adj| && r.link in adj[f] :: marks[f]
  }

  /** What holds between rounds when there was room for the bulk flows, gamma being the last factor or the next. */
  ghost predicate GoodBooks(adj: seq<seq<nat>>, short: seq<bool>, w: seq<real>, p: seq<real>, marks: seq<bool>,
                            uc: seq<real>, utput: seq<real>, gamma: real)
  {
    && Pending(short, w, p, marks) && |adj| == |short| && |uc| == |utput|
    && Room(adj, short, uc, utput) && Pressed(adj, short, uc, utput, gamma)
    && Capped(short, w, p, marks, gamma) && Settled(adj, short, w, p, marks, uc)
  }

  lemma Exact(a: real, b: real)
    requires b != 0.0
    ensures a == (a / b) * b
  {
  }

  lemma InBooks(adj: seq<seq<nat>>, short: seq<bool>, cap: seq<real>, w: seq<real>, p: seq<real>, marks: seq<bool>,
                uc: seq<real>, utput: seq<real>, rounds: seq<Round>)
    requires Books(adj, short, cap, w, p, marks, uc, utput, rounds)
    ensures Balanced(adj, cap, p, marks, uc, utput)
  {
  }

  lemma Under(uc: seq<real>, utput: seq<real>, b: nat, gamma: real)
    requires Top(uc, utput, b, gamma)
    ensures b < |uc| == |utput| && gamma > 0.0 && uc[b] != 0.0 && gamma == utput[b] / uc[b]
  {
  }

  lemma NoneYet(short: seq<bool>, marks: seq<bool>, p: seq<real>, on: seq<nat>, gamma: real)
    requires |short| == |marks| == |p| && gamma > 0.0
    ensures MarksAfter(short, marks, on[..0]) == marks && RatesAfter(short, marks, p, on[..0], gamma) == p
  {
  }

  lemma StaysEmpty(adj: seq<seq<nat>>, short: seq<bool>, cap: seq<real>, w: seq<real>, p: seq<real>, marks: seq<bool>,
                   uc: seq<real>, utput: seq<real>, rounds: seq<Round>, on: seq<nat>, gamma: real, uc': seq<real>, utput': seq<real>,
                   r: Round)
    requires Books(adj, short, cap, w, p, marks, uc, utput, rounds) && r in rounds && gamma > 0.0
    requires Balanced(adj, cap, RatesAfter(short, marks, p, on, gamma), MarksAfter(short, marks, on), uc', utput')
    requires SameGap(uc, utput, uc', utput', gamma)
    ensures uc'[r.link] == 0.0 && forall f | 0 <= f < |adj| && r.link in adj[f] :: MarksAfter(short, marks, on)[f]
  {
    hide RatesAfter;
    NothingAsked(adj, cap, p, marks, uc, utput, r.link);
    RoundEmpties(adj, cap, RatesAfter(short, marks, p, on, gamma), MarksAfter(short, marks, on), uc, utput, uc', utput', gamma,
                 r.link);
  }

  lemma BooksKept(adj: seq<seq<nat>>, short: seq<bool>, cap: seq<real>, w: seq<real>, p: seq<real>, marks: seq<bool>,
                  uc: seq<real>, utput: seq<real>, rounds: seq<Round>, b: nat, gamma: real, uc': seq<real>, utput': seq<real>)
    requires Books(adj, short, cap, w, p, marks, uc, utput, rounds) && b < |cap| && uc[b] != 0.0
    requires gamma > 0.0 && gamma == utput[b] / uc[b]
    requires Balanced(adj, cap, RatesAfter(short, marks, p, FlowsOn(adj, b), gamma), MarksAfter(short, marks, FlowsOn(adj, b)),
                      uc', utput')
    requires SameGap(uc, utput, uc', utput', gamma)
    ensures Books(adj, short, cap, w, RatesAfter(short, marks, p, FlowsOn(adj, b), gamma),
                  MarksAfter(short, marks, FlowsOn(adj, b)), uc', utput', rounds + [Round(b, gamma)])
    ensures uc'[b] == 0.0
  {
    var on := FlowsOn(adj, b);
    var p', marks' := RatesAfter(short, marks, p, on, gamma), MarksAfter(short, marks, on);
    Exact(utput[b], uc[b]);
    forall f | 0 <= f < |adj| && b in adj[f] ensures marks'[f] {
      FlowsOnExactly(adj, b, f);
    }
    hide FlowsOn, RatesAfter;
    RoundEmpties(adj, cap, p', marks', uc, utput, uc', utput', gamma, b);
    var rounds' := rounds + [Round(b, gamma)];
    forall r | r in rounds'
      ensures r.link < |cap| && uc'[r.link] == 0.0 && forall f | 0 <= f < |adj| && r.link in adj[f] :: marks'[f]
    {
      if r in rounds {
        StaysEmpty(adj, short, cap, w, p, marks, uc, utput, rounds, on, gamma, uc', utput', r);
      }
    }
    assert forall i | 0 <= i < |rounds| :: rounds[i] in rounds && rounds[i].link != b;
  }

  lemma GoodBooksKept(adj: seq<seq<nat>>, short: seq<bool>, cap: seq<real>, w: seq<real>, p: seq<real>, marks: seq<bool>,
                      uc: seq<real>, utput: seq<real>, rounds: seq<Round>, b: nat, gamma: real, uc': seq<real>, utput': seq<real>)
    requires Balanced(adj, cap, p, marks, uc, utput) && b < |cap| && uc[b] != 0.0
    requires gamma > 0.0 && gamma == utput[b] / uc[b] && GoodBooks(adj, short, w, p, marks, uc, utput, gamma)
    requires Balanced(adj, cap, RatesAfter(short, marks, p, FlowsOn(adj, b), gamma), MarksAfter(short, marks, FlowsOn(adj, b)),
                      uc', utput')
    requires SameGap(uc, utput, uc', utput', gamma)
    ensures GoodBooks(adj, short, w, RatesAfter(short, marks, p, FlowsOn(adj, b), gamma),
                      MarksAfter(short, marks, FlowsOn(adj, b)), uc', utput', gamma)
  {
    hide FlowsOn, RatesAfter, MarksAfter, Pending, Room, Pressed, Capped, Settled;
    var on := FlowsOn(adj, b);
    var p', marks' := RatesAfter(short, marks, p, on, gamma), MarksAfter(short, marks, on);
    Exact(utput[b], uc[b]);
    assert Lists(adj, b, on) by {
      forall f ensures f in on <==> 0 <= f < |adj| && b in adj[f] {
        if f >= 0 { FlowsOnExactly(adj, b, f); }
      }
    }
    PendingKept(short, w, p, marks, on, gamma);
    CappedKept(short, w, p, marks, on, gamma);
    RoomKept(adj, short, w, cap, p', marks', uc, utput, uc', utput', gamma);
    SettledKept(adj, short, w, cap, p, marks, uc, utput, uc', utput', b, on, gamma);
  }

  function Blend(niter: int, estimate: real, load: real, mu: real): real {
    if niter == 0 then load
    else if load > mu * 1.1 then (estimate + mu * 1.1) / 2.0
    else (load + estimate) / 2.0
  }

  /** After the first iteration the estimate halves its distance to the load, or to 1.1 mu where the load is above that; so
      it comes to rest there and nowhere else. The first iteration takes the load as it is. */
  lemma HalfWay(niter: int, estimate: real, load: real, mu: real)
    ensures var aim := if load < 1.1 * mu then load else 1.1 * mu;
      && (niter != 0 ==> Blend(niter, estimate, load, mu) - aim == (estimate - aim) / 2.0)
      && (niter != 0 ==> (Blend(niter, estimate, load, mu) == estimate <==> estimate == aim))
      && (niter == 0 ==> Blend(niter, estimate, load, mu) == load)
  {
  }

  lemma LoadNone(adj: seq<seq<nat>>, w: seq<real>, l: nat)
    requires |adj| == |w|
    ensures Load(adj[..0], w[..0], l) == 0.0 && FlowsOn(adj[..0], l) == []
  {
  }

  lemma {:induction false} CountGrows(path: seq<nat>, k: nat, l: nat)
    requires k < |path|
    ensures Count(path[..k + 1], l) == Count(path[..k], l) + (if path[k] == l then 1 else 0)
    ensures Count(path[..k + 1], l) <= Count(path, l)
    decreases |path|
  {
    assert path[..k + 1][..k] == path[..k];
    var n := |path| - 1;
    if k < n {
      CountGrows(path[..n], k, l);
      assert path[..n][..k + 1] == path[..k + 1];
    } else {
      assert path[..k + 1] == path;
    }
  }

  lemma {:induction false} FlowsOnGrows(adj: seq<seq<nat>>, l: nat, j: nat)
    requires j < |adj|
    ensures FlowsOn(adj[..j + 1], l) == FlowsOn(adj[..j], l) + Repeat(j, Count(adj[j], l))
    ensures |FlowsOn(adj[..j + 1], l)| <= |FlowsOn(adj, l)|
    decreases |adj|
  {
    assert adj[..j + 1][..j] == adj[..j];
    var n := |adj| - 1;
    if j < n {
      FlowsOnGrows(adj[..n], l, j);
      assert adj[..n][..j + 1] == adj[..j + 1] && adj[..n][..j] == adj[..j];
    } else {
      assert adj[..j + 1] == adj;
    }
  }

  lemma Start(path: seq<nat>, x: real)
    ensures forall l: nat :: Share(path[..0], l, x) == 0.0
  {
    forall l: nat ensures Share(path[..0], l, x) == 0.0 {
      ShareSign(path[..0], l, x);
    }
  }

  lemma Step(path: seq<nat>, j: nat, x: real)
    requires j < |path|
    ensures forall l: nat :: Share(path[..j + 1], l, x) == Share(path[..j], l, x) + (if path[j] == l then x else 0.0)
  {
    assert path[..j + 1][..j] == path[..j];
  }

  lemma LoadGrows(adj: seq<seq<nat>>, w: seq<real>, i: nat, l: nat)
    requires |adj| == |w| && i < |adj|
    ensures Load(adj[..i + 1], w[..i + 1], l) == Load(adj[..i], w[..i], l) + Share(adj[i], l, w[i])
  {
    hide Share;
    assert adj[..i + 1][..i] == adj[..i] && w[..i + 1][..i] == w[..i];
  }

  lemma PartGrows(adj: seq<seq<nat>>, p: seq<real>, short: seq<bool>, i: nat, l: nat, which: bool)
    requires |adj| == |p| == |short| && i < |adj|
    ensures Load(adj[..i + 1], Part(p[..i + 1], short[..i + 1], which), l)
      == Load(adj[..i], Part(p[..i], short[..i], which), l) + (if short[i] == which then Share(adj[i], l, p[i]) else 0.0)
  {
    hide Share;
    var w := Part(p, short, which);
    LoadGrows(adj, w, i, l);
    assert w[..i] == Part(p[..i], short[..i], which) && w[..i + 1] == Part(p[..i + 1], short[..i + 1], which);
    ShareMinus(adj[i], l, 0.0, 0.0);
  }

  lemma OneMore(short: seq<bool>, marks: seq<bool>, p: seq<real>, on: seq<nat>, i: nat, gamma: real)
    requires |short| == |marks| == |p| && gamma > 0.0 && i < |on| && on[i] < |p|
    ensures
      var t, m, r := on[i], MarksAfter(short, marks, on[..i]), RatesAfter(short, marks, p, on[..i], gamma);
      if !short[t] && !m[t]
      then MarksAfter(short, marks, on[..i + 1]) == m[t := true]
        && RatesAfter(short, marks, p, on[..i + 1], gamma) == r[t := r[t] / gamma]
      else MarksAfter(short, marks, on[..i + 1]) == m && RatesAfter(short, marks, p, on[..i + 1], gamma) == r
  {
    assert on[..i + 1] == on[..i] + [on[i]];
  }

  lemma RoundsLimited(adj: seq<seq<nat>>, short: seq<bool>, cap: seq<real>, w: seq<real>, p: seq<real>, marks: seq<bool>,
                      uc: seq<real>, utput: seq<real>, rounds: seq<Round>)
    requires Books(adj, short, cap, w, p, marks, uc, utput, rounds)
    ensures Distinct(rounds) && |rounds| <= |cap|
  {
    hide Balanced, Untouched;
    FewRounds(rounds, |cap|);
  }

  lemma Bounded(uc: seq<real>, utput: seq<real>, bneck: int, gamma: real)
    requires Top(uc, utput, bneck, gamma)
    ensures -1 <= bneck < |uc| && gamma >= 0.0 && (bneck != -1 ==> gamma > 0.0)
  {
  }

  lemma FallingOn(rounds: seq<Round>, r: Round)
    requires Falling(rounds) && forall s | s in rounds :: s.gamma >= r.gamma
    ensures Falling(rounds + [r]) && forall s | s in rounds + [r] :: s.gamma >= r.gamma
  {
    assert forall i | 0 <= i < |rounds| :: rounds[i] in rounds;
  }

  lemma Larger(x: real, y: real, k: real)
    requires x <= y && k >= 0.0
    ensures x * k <= y * k
  {
  }

  /** The state that `Prepare` leaves. */
  lemma FirstBooks(adj: seq<seq<nat>>, short: seq<bool>, cap: seq<real>, w: seq<real>, uc: seq<real>, utput: seq<real>,
                   bneck: int, gamma: real)
    requires Balanced(adj, cap, w, short, uc, utput) && Wishes(short, w) && Top(uc, utput, bneck, gamma)
    ensures Pending(short, w, w, short)
    ensures Roomy(adj, short, cap, w) ==> GoodBooks(adj, short, w, w, short, uc, utput, gamma)
  {
    hide Share, Load;
    if Roomy(adj, short, cap, w) {
      forall l | 0 <= l < |uc| && Bulky(adj, short, l)
        ensures utput[l] >= 0.0 && uc[l] > 0.0 && utput[l] <= gamma * uc[l]
      {
        AskedNonneg(adj, short, w, cap, w, short, uc, utput, l);
        Exact(utput[l], uc[l]);
        Larger(utput[l] / uc[l], gamma, uc[l]);
      }
    }
  }

  lemma NextBooks(adj: seq<seq<nat>>, short: seq<bool>, cap: seq<real>, w: seq<real>, p: seq<real>, marks: seq<bool>,
                  uc: seq<real>, utput: seq<real>, rounds: seq<Round>, gamma: real, bneck: int, next: real)
    requires Books(adj, short, cap, w, p, marks, uc, utput, rounds) && gamma > 0.0
    requires GoodBooks(adj, short, w, p, marks, uc, utput, gamma)
    requires Top(uc, utput, bneck, next)
    ensures GoodBooks(adj, short, w, p, marks, uc, utput, next) && next <= gamma
  {
    if bneck != -1 {
      NextIsLower(adj, short, cap, w, p, marks, uc, utput, gamma, bneck, next);
    }
    CappedBelow(short, w, p, marks, gamma, next);
    hide Balanced, Untouched, Settled, Capped;
    forall l | 0 <= l < |uc| && Bulky(adj, short, l) ensures utput[l] <= next * uc[l] {
      if uc[l] != 0.0 {
        Exact(utput[l], uc[l]);
        Larger(utput[l] / uc[l], next, uc[l]);
      }
    }
  }

  lemma NextIsLower(adj: seq<seq<nat>>, short: seq<bool>, cap: seq<real>, w: seq<real>, p: seq<real>, marks: seq<bool>,
                    uc: seq<real>, utput: seq<real>, gamma: real, b: nat, next: real)
    requires Balanced(adj, cap, p, marks, uc, utput) && Pending(short, w, p, marks) && |adj| == |short|
    requires Room(adj, short, uc, utput) && Pressed(adj, short, uc, utput, gamma)
    requires b < |cap| && next > 0.0 && uc[b] != 0.0 && next == utput[b] / uc[b]
    ensures next <= gamma
  {
    Exact(utput[b], uc[b]);
    assert utput[b] != 0.0;
    var f := SomeoneAsks(adj, cap, p, marks, uc, utput, b);
    assert Bulky(adj, short, b);
    AtMost(utput[b], uc[b], gamma);
  }

  lemma AtMost(u: real, c: real, k: real)
    requires c > 0.0 && u <= k * c
    ensures u / c <= k
  {
    Exact(u, c);
  }

  /** Once no link is under pressure. */
  lemma LastBooks(adj: seq<seq<nat>>, short: seq<bool>, cap: seq<real>, w: seq<real>, p: seq<real>, marks: seq<bool>,
                  uc: seq<real>, utput: seq<real>, rounds: seq<Round>, gamma: real)
    requires Books(adj, short, cap, w, p, marks, uc, utput, rounds)
    requires InRange(adj, |cap|) && forall f | 0 <= f < |adj| :: adj[f] != []
    requires Top(uc, utput, -1, gamma)
    requires Wishes(short, w) ==> Pending(short, w, p, marks)
    requires Wishes(short, w) && Roomy(adj, short, cap, w) ==> GoodBooks(adj, short, w, p, marks, uc, utput, gamma)
    ensures |p| == |w| && forall f | 0 <= f < |w| && short[f] :: p[f] == w[f]
    ensures Wishes(short, w) ==> Wishes(short, p) && (AllFit(adj, short, cap, p) <==> Roomy(adj, short, cap, w))
    ensures Wishes(short, w) && Roomy(adj, short, cap, w) ==> Bottlenecked(adj, short, cap, w, p) && MaxMinFair(adj, short, cap, w, p)
  {
    hide Share, Load, Roomy, Wishes, MaxMinFair, Bottlenecked;
    if Wishes(short, w) {
      if Roomy(adj, short, cap, w) {
        hide Settled, Balanced, Untouched, Capped;
        AllScaled(adj, short, w, cap, p, marks, uc, utput);
        SettledIsBottlenecked(adj, short, w, cap, p, marks, uc);
        BottlenecksAreFair(adj, short, cap, w, p);
      } else {
        NoRoomNoFit(adj, short, cap, w, p);
      }
    }
  }
}
