/** The table walks of AodvNode from some list position on, after what they have collected so far: the
    invariants of the loops in AodvAgent. */
module AodvWalks {
  import opened RoutingBase
  import opened AodvNode
  import opened AodvProps

  predicate Listed(n: Node, ds: seq<Addr>) {
    forall d | d in ds :: d in n.table
  }

  function FailRest(n: Node, id: Addr, ds: seq<Addr>, k: nat, lost: seq<Unreachable>): Losses
    requires Listed(n, ds) && k <= |ds|
  {
    var r := FailAll(n, id, ds[k..]);
    Losses(r.node, lost + r.lost)
  }

  lemma FailHead(n: Node, id: Addr, ds: seq<Addr>)
    requires NodeOk(n) && Listed(n, ds) && ds != []
    ensures var l := FailOne(n, id, ds[0]);
            && NodeOk(l.node) && Listed(l.node, ds)
            && FailAll(n, id, ds) == Losses(FailAll(l.node, id, ds[1..]).node, l.lost + FailAll(l.node, id, ds[1..]).lost)
  {
    FailOneStep(n, id, ds[0]);
  }

  lemma FailNext(n: Node, id: Addr, ds: seq<Addr>, k: nat, lost: seq<Unreachable>)
    requires NodeOk(n) && k < |ds| && Listed(n, ds)
    ensures var l := FailOne(n, id, ds[k]);
            && NodeOk(l.node) && Listed(l.node, ds)
            && FailRest(n, id, ds, k, lost) == FailRest(l.node, id, ds, k + 1, lost + l.lost)
  {
    hide NodeOk, FailOne, FailAll;
    FailReady(n, id, ds, ds[k]);
    SplitAt(ds, k);
    FailHead(n, id, ds[k..]);
    var l := FailOne(n, id, ds[k]);
    Regroup(lost, l.lost, FailAll(l.node, id, ds[k + 1..]).lost);
  }

  lemma FailReady(n: Node, id: Addr, ds: seq<Addr>, d: Addr)
    requires NodeOk(n) && d in n.table && Listed(n, ds)
    ensures NodeOk(FailOne(n, id, d).node) && Listed(FailOne(n, id, d).node, ds)
  {
    FailOneStep(n, id, d);
  }

  lemma FailEnds(n: Node, id: Addr, ds: seq<Addr>, lost: seq<Unreachable>)
    requires Listed(n, ds)
    ensures FailRest(n, id, ds, 0, []) == FailAll(n, id, ds) && FailRest(n, id, ds, |ds|, lost) == Losses(n, lost)
  {
    assert ds[0..] == ds && ds[|ds|..] == [];
  }

  function LoseRest(n: Node, sender: Addr, us: seq<Unreachable>, k: nat, lost: seq<Unreachable>): Losses
    requires k <= |us|
  {
    var r := LoseAll(n, sender, us[k..]);
    Losses(r.node, lost + r.lost)
  }

  lemma LoseReady(n: Node, sender: Addr, u: Unreachable)
    requires NodeOk(n) && (u.seqno % 2 == 1 || u.seqno == 0)
    ensures NodeOk(LoseOne(n, sender, u).node)
  {
    LoseOneStep(n, sender, u);
  }

  lemma LoseHead(n: Node, sender: Addr, us: seq<Unreachable>)
    requires us != []
    ensures var l := LoseOne(n, sender, us[0]);
            LoseAll(n, sender, us) == Losses(LoseAll(l.node, sender, us[1..]).node, l.lost + LoseAll(l.node, sender, us[1..]).lost)
  {
  }

  lemma LoseNext(n: Node, sender: Addr, us: seq<Unreachable>, k: nat, lost: seq<Unreachable>)
    requires NodeOk(n) && k < |us| && LostOk(us)
    ensures var l := LoseOne(n, sender, us[k]);
            && NodeOk(l.node)
            && LoseRest(n, sender, us, k, lost) == LoseRest(l.node, sender, us, k + 1, lost + l.lost)
  {
    hide NodeOk, LoseOne, LoseAll;
    LoseReady(n, sender, us[k]);
    SplitAt(us, k);
    LoseHead(n, sender, us[k..]);
    var l := LoseOne(n, sender, us[k]);
    Regroup(lost, l.lost, LoseAll(l.node, sender, us[k + 1..]).lost);
  }

  lemma LoseEnds(n: Node, sender: Addr, us: seq<Unreachable>, lost: seq<Unreachable>)
    ensures LoseRest(n, sender, us, 0, []) == LoseAll(n, sender, us) && LoseRest(n, sender, us, |us|, lost) == Losses(n, lost)
  {
    assert us[0..] == us && us[|us|..] == [];
  }

  function PurgeRest(n: Node, ds: seq<Addr>, env: Env, k: nat, sent: seq<Msg>): Out
    requires Listed(n, ds) && k <= |ds|
  {
    var r := PurgeAll(n, ds[k..], env);
    Out(r.node, sent + r.sent)
  }

  lemma PurgeReady(n: Node, ds: seq<Addr>, d: Addr, env: Env)
    requires NodeOk(n) && d in n.table && Listed(n, ds)
    ensures NodeOk(PurgeOne(n, d, env).node) && Listed(PurgeOne(n, d, env).node, ds)
  {
    PurgeOneStep(n, d, env);
  }

  lemma PurgeHead(n: Node, ds: seq<Addr>, env: Env)
    requires NodeOk(n) && Listed(n, ds) && ds != []
    ensures var o := PurgeOne(n, ds[0], env);
            && NodeOk(o.node) && Listed(o.node, ds)
            && PurgeAll(n, ds, env) == Out(PurgeAll(o.node, ds[1..], env).node, o.sent + PurgeAll(o.node, ds[1..], env).sent)
  {
    PurgeOneStep(n, ds[0], env);
  }

  lemma PurgeNext(n: Node, ds: seq<Addr>, env: Env, k: nat, sent: seq<Msg>)
    requires NodeOk(n) && k < |ds| && Listed(n, ds)
    ensures var o := PurgeOne(n, ds[k], env);
            && NodeOk(o.node) && Listed(o.node, ds)
            && PurgeRest(n, ds, env, k, sent) == PurgeRest(o.node, ds, env, k + 1, sent + o.sent)
  {
    hide NodeOk, PurgeOne, PurgeAll;
    PurgeReady(n, ds, ds[k], env);
    SplitAt(ds, k);
    PurgeHead(n, ds[k..], env);
    var o := PurgeOne(n, ds[k], env);
    Regroup(sent, o.sent, PurgeAll(o.node, ds[k + 1..], env).sent);
  }

  lemma PurgeEnds(n: Node, ds: seq<Addr>, env: Env, sent: seq<Msg>)
    requires Listed(n, ds)
    ensures PurgeRest(n, ds, env, 0, []) == PurgeAll(n, ds, env) && PurgeRest(n, ds, env, |ds|, sent) == Out(n, sent)
  {
    assert ds[0..] == ds && ds[|ds|..] == [];
  }
}
