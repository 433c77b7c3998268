/** Hop-by-hop reservation: a REQUEST collects the admission decisions of the links on its path, and a CONFIRM on the
    same path makes them good or takes them back; a TEARDOWN releases them. Rates are reals. */
module Reservation {

  const NFLOWS := 500

  /** A link with its admission controller: the table of undecided flows (-1 marks a free slot), the sum of reserved
      rates, and the number of admitted flows. The ledger is not in the source: it says whose rate each change was. */
  datatype Link = Link(pending: seq<int>, resv: real, numfl: int, ledger: map<int, real>)

  /** What is entered on a link for a flow. */
  function Held(link: Link, id: int): real {
    if id in link.ledger then link.ledger[id] else 0.0
  }

  function Post(link: Link, id: int, x: real): map<int, real> {
    link.ledger[id := Held(link, id) + x]
  }

  /** Scans the table for an entry. */
  function Lookup(pending: seq<int>, id: int): (j: int)
    ensures -1 <= j < |pending|
    ensures if j == -1 then id !in pending else pending[j] == id && id !in pending[..j]
  {
    if pending == [] then -1
    else if pending[0] == id then 0
    else
      var j := Lookup(pending[1..], id);
      assert forall k | 1 <= k < |pending| :: pending[k] == pending[1..][k - 1];
      assert j != -1 ==> pending[..j + 1] == [pending[0]] + pending[1..][..j];
      if j == -1 then -1 else j + 1
  }

  predicate Admits(link: Link, limit: real, rate: real) {
    link.resv + rate <= limit
  }

  /** A request passes, or the table is full and the program ends. */
  datatype Reply = Passed(link: Link, decide: bool) | Exit

  function OnRequest(link: Link, limit: real, id: int, rate: real): Reply {
    if !Admits(link, limit, rate) then Passed(link, false)
    else
      var j := Lookup(link.pending, -1);
      if j == -1 then Exit
      else Passed(Link(link.pending[j := id], link.resv + rate, link.numfl + 1, Post(link, id, rate)), true)
  }

  function OnConfirm(link: Link, id: int, rate: real, ok: bool): Link {
    var j := Lookup(link.pending, id);
    if j == -1 then link
    else if ok then link.(pending := link.pending[j := -1])
    else Link(link.pending[j := -1], link.resv - rate, link.numfl - 1, Post(link, id, -rate))
  }

  function OnTeardown(link: Link, id: int, rate: real): Link {
    link.(resv := link.resv - rate, numfl := link.numfl - 1, ledger := Post(link, id, -rate))
  }

  // ---------- flows and their messages ----------

  datatype Flow = Flow(path: seq<nat>, rate: real)

  /** How far a flow's message has come: REQUEST or CONFIRM with its decision bit, or TEARDOWN. */
  datatype Phase = Idle | Requesting(hop: nat, ok: bool) | Confirming(hop: nat, ok: bool) | Accepted | TearingDown(hop: nat)

  /** `base` is what the links' counters of admitted flows start from: -1, or 0 once a trace has been attached. */
  datatype Net = Net(links: seq<Link>, phases: seq<Phase>, base: int, halted: bool)

  /** `Quit` is a source that stops without having been accepted. */
  datatype Event = Start(flow: nat) | Hop(flow: nat) | Stop(flow: nat) | Quit(flow: nat)

  /** Distinct flow ids are their positions. A path crosses a link at most once; rates and limits are not negative. */
  predicate Setup(flows: seq<Flow>, limits: seq<real>) {
    && (forall f | 0 <= f < |flows| :: flows[f].rate >= 0.0)
    && (forall f, k | 0 <= f < |flows| && 0 <= k < |flows[f].path| :: flows[f].path[k] < |limits|)
    && (forall f | 0 <= f < |flows| :: NoRepeats(flows[f].path))
    && (forall l | 0 <= l < |limits| :: limits[l] >= 0.0)
  }

  predicate NoRepeats(path: seq<nat>) {
    forall i, j | 0 <= i < j < |path| :: path[i] != path[j]
  }

  predicate Shape(flows: seq<Flow>, limits: seq<real>, net: Net) {
    Setup(flows, limits) && |net.links| == |limits| && |net.phases| == |flows|
  }

  /** The source starts an idle flow and tears down an accepted one, or one that was never accepted. */
  predicate Enabled(flows: seq<Flow>, net: Net, e: Event)
    requires |net.phases| == |flows|
  {
    && !net.halted && e.flow < |flows|
    && match e {
         case Start(f) => net.phases[f].Idle?
         case Stop(f) => net.phases[f].Accepted?
         case Quit(f) => net.phases[f].Idle?
         case Hop(f) => !net.phases[f].Idle? && !net.phases[f].Accepted?
       }
  }

  function Apply(flows: seq<Flow>, limits: seq<real>, net: Net, e: Event): Net
    requires Shape(flows, limits, net)
  {
    if !Enabled(flows, net, e) then net
    else
      var f := e.flow;
      match e
      case Start(_) => net.(phases := net.phases[f := Requesting(0, true)])
      case Stop(_) => net.(phases := net.phases[f := TearingDown(0)])
      case Quit(_) => net.(phases := net.phases[f := TearingDown(0)])
      case Hop(_) => Move(flows, limits, net, f)
  }

  /** A message crosses the next link of its path, or is answered at the end of it. */
  function Move(flows: seq<Flow>, limits: seq<real>, net: Net, f: nat): Net
    requires Shape(flows, limits, net) && f < |flows|
  {
    var path, rate := flows[f].path, flows[f].rate;
    match net.phases[f]
    case Requesting(k, ok) =>
      if k < |path| then
        match OnRequest(net.links[path[k]], limits[path[k]], f, rate) {
          case Passed(link, decide) =>
            net.(links := net.links[path[k] := link], phases := net.phases[f := Requesting(k + 1, ok && decide)])
          case Exit => net.(halted := true)
        }
      else net.(phases := net.phases[f := Confirming(0, ok)])
    case Confirming(k, ok) =>
      if k < |path| then
        net.(links := net.links[path[k] := OnConfirm(net.links[path[k]], f, rate, ok)],
             phases := net.phases[f := Confirming(k + 1, ok)])
      else net.(phases := net.phases[f := if ok then Accepted else Idle])
    case TearingDown(k) =>
      if k < |path| then
        net.(links := net.links[path[k] := OnTeardown(net.links[path[k]], f, rate)],
             phases := net.phases[f := TearingDown(k + 1)])
      else net.(phases := net.phases[f := Idle])
    case _ => net
  }

  function Initial(flows: seq<Flow>, limits: seq<real>, base: int): Net {
    Net(seq(|limits|, _ => Link(seq(NFLOWS, _ => -1), 0.0, base, map[])), seq(|flows|, _ => Idle), base, false)
  }

  function Exec(flows: seq<Flow>, limits: seq<real>, base: int, events: seq<Event>): (net: Net)
    requires Setup(flows, limits)
    ensures Shape(flows, limits, net)
  {
    if events == [] then Initial(flows, limits, base)
    else Apply(flows, limits, Exec(flows, limits, base, events[..|events| - 1]), events[|events| - 1])
  }

  /** Only accepted flows are torn down. */
  predicate Polite(events: seq<Event>) {
    forall i | 0 <= i < |events| :: !events[i].Quit?
  }

  // ---------- who holds a reservation ----------

  /** Whether flow f's rate is part of what is reserved on link l. */
  predicate Holds(flows: seq<Flow>, net: Net, f: nat, l: nat)
    requires f < |flows| == |net.phases| && l < |net.links|
  {
    var path, tentative := flows[f].path, f in net.links[l].pending;
    match net.phases[f]
    case Idle => false
    case Accepted => l in path
    case Requesting(k, ok) => tentative
    case Confirming(k, ok) => tentative || (ok && k <= |path| && l in path[..k])
    case TearingDown(k) => k <= |path| && l in path[k..]
  }

  function Holders(flows: seq<Flow>, net: Net, l: nat): (h: seq<bool>)
    requires |flows| == |net.phases| && l < |net.links|
    ensures |h| == |flows| && forall f | 0 <= f < |h| :: h[f] == Holds(flows, net, f, l)
  {
    seq(|flows|, f requires 0 <= f < |flows| == |net.phases| && l < |net.links| => Holds(flows, net, f, l))
  }

  function Sum(flows: seq<Flow>, h: seq<bool>): real
    requires |flows| == |h|
  {
    if flows == [] then 0.0
    else
      var n := |flows| - 1;
      Sum(flows[..n], h[..n]) + if h[n] then flows[n].rate else 0.0
  }

  function Number(h: seq<bool>): nat {
    if h == [] then 0 else Number(h[..|h| - 1]) + if h[|h| - 1] then 1 else 0
  }

  lemma {:induction false} SumUpdate(flows: seq<Flow>, h: seq<bool>, f: nat, b: bool)
    requires |flows| == |h| && f < |h|
    ensures Sum(flows, h[f := b]) == Sum(flows, h) + (if b then flows[f].rate else 0.0) - (if h[f] then flows[f].rate else 0.0)
    ensures Number(h[f := b]) == Number(h) + (if b then 1 else 0) - (if h[f] then 1 else 0)
    decreases |h|
  {
    var n := |h| - 1;
    if f == n {
      assert h[f := b][..n] == h[..n];
    } else {
      assert h[f := b][..n] == h[..n][f := b];
      SumUpdate(flows[..n], h[..n], f, b);
    }
  }

  // ---------- the invariant ----------

  /** The slots in use name different flows. */
  predicate Slots(pending: seq<int>, flows: nat) {
    && |pending| == NFLOWS && (forall i | 0 <= i < |pending| :: -1 <= pending[i] < flows)
    && forall i, j | 0 <= i < j < |pending| && pending[i] == pending[j] :: pending[i] == -1
  }

  /** What is entered for a flow is its rate if it holds a reservation, and nothing otherwise. */
  predicate Entered(flows: seq<Flow>, net: Net, f: nat, l: nat)
    requires f < |flows| == |net.phases| && l < |net.links|
  {
    Held(net.links[l], f) == if Holds(flows, net, f, l) then flows[f].rate else 0.0
  }

  /** A link's books: what is reserved is the sum over those who hold a reservation, and within the limit. */
  predicate Books(flows: seq<Flow>, limits: seq<real>, net: Net, l: nat)
    requires Shape(flows, limits, net) && l < |limits|
  {
    var link, h := net.links[l], Holders(flows, net, l);
    Slots(link.pending, |flows|) && link.resv == Sum(flows, h) && link.numfl == net.base + Number(h) && link.resv <= limits[l]
  }

  /** A flow is undecided only where its REQUEST has been and its CONFIRM has not; a good decision bit means that all
      links passed so far agreed. */
  predicate Track(flows: seq<Flow>, net: Net, f: nat)
    requires |flows| == |net.phases| && f < |flows|
  {
    var path := flows[f].path;
    match net.phases[f]
    case Requesting(k, ok) =>
      && k <= |path| && (forall l | 0 <= l < |net.links| && f in net.links[l].pending :: l in path[..k])
      && (ok <==> forall l | 0 <= l < |net.links| && l in path[..k] :: f in net.links[l].pending)
    case Confirming(k, ok) =>
      && k <= |path| && (forall l | 0 <= l < |net.links| && f in net.links[l].pending :: l in path[k..])
      && (ok ==> forall l | 0 <= l < |net.links| && l in path[k..] :: f in net.links[l].pending)
    case TearingDown(k) => k <= |path| && forall l | 0 <= l < |net.links| :: f !in net.links[l].pending
    case _ => forall l | 0 <= l < |net.links| :: f !in net.links[l].pending
  }

  ghost predicate Inv(flows: seq<Flow>, limits: seq<real>, net: Net) {
    && Shape(flows, limits, net)
    && (forall l | 0 <= l < |limits| :: Books(flows, limits, net, l))
    && (forall f | 0 <= f < |flows| :: Track(flows, net, f))
    && (forall f, l | 0 <= f < |flows| && 0 <= l < |limits| :: Entered(flows, net, f, l))
  }

  // ---------- one link ----------

  lemma RequestSlot(flows: nat, link: Link, limit: real, id: nat, rate: real)
    requires Slots(link.pending, flows) && id < flows && id !in link.pending
    ensures match OnRequest(link, limit, id, rate)
      case Exit => Admits(link, limit, rate) && -1 !in link.pending
      case Passed(link', decide) =>
        && Slots(link'.pending, flows) && decide == Admits(link, limit, rate)
        && (forall g: nat :: g in link'.pending <==> g in link.pending || (decide && g == id))
        && (forall g: nat :: Held(link', g) == Held(link, g) + if decide && g == id then rate else 0.0)
  {
    var j := Lookup(link.pending, -1);
    if Admits(link, limit, rate) && j != -1 {
      SlotSet(link.pending, flows, j, id);
    }
  }

  lemma ConfirmSlot(flows: nat, link: Link, id: nat, rate: real, ok: bool)
    requires Slots(link.pending, flows) && id < flows
    ensures var link' := OnConfirm(link, id, rate, ok);
      && Slots(link'.pending, flows)
      && (forall g: nat :: g in link'.pending <==> g in link.pending && g != id)
      && link'.resv == link.resv - (if id in link.pending && !ok then rate else 0.0)
      && (forall g: nat :: Held(link', g) == Held(link, g) - if g == id && id in link.pending && !ok then rate else 0.0)
      && link'.numfl == link.numfl - (if id in link.pending && !ok then 1 else 0)
  {
    var j := Lookup(link.pending, id);
    if j != -1 {
      SlotSet(link.pending, flows, j, -1);
    }
  }

  /** Overwriting one slot drops what it named and adds what it names. */
  lemma SlotSet(pending: seq<int>, flows: nat, j: nat, id: int)
    requires Slots(pending, flows) && j < |pending| && -1 <= id < flows && (id == -1 || id !in pending)
    ensures Slots(pending[j := id], flows)
    ensures forall g: nat :: g in pending[j := id] <==> g == id || (g in pending && g != pending[j])
  {
    var p := pending[j := id];
    forall g: nat | g in pending && g != pending[j] ensures g in p {
      var i :| 0 <= i < |pending| && pending[i] == g;
      assert p[i] == g;
    }
    assert p[j] == id;
    forall g: nat | g in p && g != id ensures g in pending && g != pending[j] {
      var i :| 0 <= i < |p| && p[i] == g;
      assert i != j && pending[i] == g;
    }
  }

  // ---------- one step ----------

  /** Nothing changes but flow f's phase, and on link l0 (none if -1) only what concerns f. */
  ghost predicate Local(flows: seq<Flow>, net: Net, net': Net, f: nat, l0: int)
    requires f < |flows|
  {
    && |net'.links| == |net.links| && |net'.phases| == |net.phases| == |flows| && net'.base == net.base
    && (forall g | 0 <= g < |flows| && g != f :: net'.phases[g] == net.phases[g])
    && (forall l | 0 <= l < |net.links| && l != l0 :: net'.links[l] == net.links[l])
    && (forall l, g: nat | 0 <= l < |net.links| && g != f :: g in net'.links[l].pending <==> g in net.links[l].pending)
    && forall l, g: nat | 0 <= l < |net.links| && g != f :: Held(net'.links[l], g) == Held(net.links[l], g)
  }

  lemma OthersTrack(flows: seq<Flow>, net: Net, net': Net, f: nat, l0: int, g: nat)
    requires f < |flows| && g < |flows| && g != f && Local(flows, net, net', f, l0) && Track(flows, net, g)
    ensures Track(flows, net', g)
  {
  }

  /** The books of a link stay right when what is reserved moves with flow f's hold on it. */
  lemma BooksMove(flows: seq<Flow>, limits: seq<real>, net: Net, net': Net, f: nat, l0: int, l: nat)
    requires Shape(flows, limits, net) && f < |flows| && l < |limits| && Local(flows, net, net', f, l0)
    requires Books(flows, limits, net, l) && Slots(net'.links[l].pending, |flows|) && net'.links[l].resv <= limits[l]
    requires
      var was, now := Holds(flows, net, f, l), Holds(flows, net', f, l);
      && net'.links[l].resv == net.links[l].resv + (if now then flows[f].rate else 0.0) - (if was then flows[f].rate else 0.0)
      && net'.links[l].numfl == net.links[l].numfl + (if now then 1 else 0) - (if was then 1 else 0)
    ensures Books(flows, limits, net', l)
  {
    var h, h' := Holders(flows, net, l), Holders(flows, net', l);
    assert h' == h[f := Holds(flows, net', f, l)];
    SumUpdate(flows, h, f, Holds(flows, net', f, l));
  }

  lemma BooksStay(flows: seq<Flow>, limits: seq<real>, net: Net, net': Net, f: nat, l0: int)
    requires Inv(flows, limits, net) && f < |flows| && Local(flows, net, net', f, l0)
    requires forall l | 0 <= l < |limits| && l != l0 :: Holds(flows, net', f, l) == Holds(flows, net, f, l)
    ensures forall l | 0 <= l < |limits| && l != l0 :: Books(flows, limits, net', l)
  {
    hide Holds, Sum, Number;
    forall l | 0 <= l < |limits| && l != l0 ensures Books(flows, limits, net', l) {
      BooksMove(flows, limits, net, net', f, l0, l);
    }
  }

  lemma EnteredMove(flows: seq<Flow>, limits: seq<real>, net: Net, net': Net, f: nat, l0: int, g: nat, l: nat)
    requires Inv(flows, limits, net) && f < |flows| && g < |flows| && l < |limits| && Local(flows, net, net', f, l0)
    requires l != l0 ==> Holds(flows, net', f, l) == Holds(flows, net, f, l)
    requires l == l0 ==> Entered(flows, net', f, l)
    ensures Entered(flows, net', g, l)
  {
    assert Entered(flows, net, g, l);
    hide Inv;
  }

  lemma InvFrom(flows: seq<Flow>, limits: seq<real>, net: Net, net': Net, f: nat, l0: int)
    requires Inv(flows, limits, net) && f < |flows| && Local(flows, net, net', f, l0) && Track(flows, net', f)
    requires forall l | 0 <= l < |limits| && l != l0 :: Holds(flows, net', f, l) == Holds(flows, net, f, l)
    requires 0 <= l0 < |limits| ==> Books(flows, limits, net', l0) && Entered(flows, net', f, l0)
    ensures Inv(flows, limits, net')
  {
    BooksStay(flows, limits, net, net', f, l0);
    forall g, l | 0 <= g < |flows| && 0 <= l < |limits| ensures Entered(flows, net', g, l) {
      EnteredMove(flows, limits, net, net', f, l0, g, l);
    }
    hide Books, Holds, Entered;
    forall g | 0 <= g < |flows| ensures Track(flows, net', g) {
      if g != f { OthersTrack(flows, net, net', f, l0, g); }
    }
  }

  // ---------- the messages ----------

  lemma PathSplit(path: seq<nat>, k: nat)
    requires NoRepeats(path) && k < |path|
    ensures path[k] !in path[..k] && path[k] !in path[k + 1..]
    ensures forall l :: l in path[..k + 1] <==> l in path[..k] || l == path[k]
    ensures forall l :: l in path[k..] <==> l in path[k + 1..] || l == path[k]
  {
    assert path[..k + 1] == path[..k] + [path[k]];
    assert path[k..] == [path[k]] + path[k + 1..];
  }

  lemma RequestHop(flows: seq<Flow>, limits: seq<real>, net: Net, f: nat)
    requires Inv(flows, limits, net) && f < |flows|
    requires net.phases[f].Requesting? && net.phases[f].hop < |flows[f].path|
    ensures Inv(flows, limits, Move(flows, limits, net, f))
  {
    var path, rate, k := flows[f].path, flows[f].rate, net.phases[f].hop;
    var l0 := path[k];
    if OnRequest(net.links[l0], limits[l0], f, rate).Exit? {
      Halting(flows, limits, net);
    } else {
      RequestPasses(flows, limits, net, f);
    }
  }

  /** Where the program ends everything stays as it was. */
  lemma Halting(flows: seq<Flow>, limits: seq<real>, net: Net)
    requires Inv(flows, limits, net)
    ensures Inv(flows, limits, net.(halted := true))
  {
    var net' := net.(halted := true);
    forall l | 0 <= l < |limits| ensures Books(flows, limits, net', l) {
      assert Books(flows, limits, net, l);
      assert Holders(flows, net', l) == Holders(flows, net, l);
    }
    forall f | 0 <= f < |flows| ensures Track(flows, net', f) { assert Track(flows, net, f); }
    forall f, l | 0 <= f < |flows| && 0 <= l < |limits| ensures Entered(flows, net', f, l) {
      assert Entered(flows, net, f, l);
    }
  }

  lemma RequestPasses(flows: seq<Flow>, limits: seq<real>, net: Net, f: nat)
    requires Inv(flows, limits, net) && f < |flows|
    requires net.phases[f].Requesting? && net.phases[f].hop < |flows[f].path|
    requires var l0 := flows[f].path[net.phases[f].hop]; OnRequest(net.links[l0], limits[l0], f, flows[f].rate).Passed?
    ensures Inv(flows, limits, Move(flows, limits, net, f))
  {
    var path, rate, k := flows[f].path, flows[f].rate, net.phases[f].hop;
    var net', l0 := Move(flows, limits, net, f), path[k];
    assert Books(flows, limits, net, l0) && Track(flows, net, f) && Entered(flows, net, f, l0);
    PathSplit(path, k);
    assert f !in net.links[l0].pending;
    RequestSlot(|flows|, net.links[l0], limits[l0], f, rate);
    hide Books, Slots, Lookup, Held;
    assert Local(flows, net, net', f, l0);
    RequestBooks(flows, limits, net, f);
    assert Track(flows, net', f);
    assert Entered(flows, net', f, l0);
    InvFrom(flows, limits, net, net', f, l0);
  }

  lemma RequestBooks(flows: seq<Flow>, limits: seq<real>, net: Net, f: nat)
    requires Inv(flows, limits, net) && f < |flows|
    requires net.phases[f].Requesting? && net.phases[f].hop < |flows[f].path|
    requires var l0 := flows[f].path[net.phases[f].hop]; OnRequest(net.links[l0], limits[l0], f, flows[f].rate).Passed?
    requires Local(flows, net, Move(flows, limits, net, f), f, flows[f].path[net.phases[f].hop])
    ensures Books(flows, limits, Move(flows, limits, net, f), flows[f].path[net.phases[f].hop])
  {
    var path, rate, k := flows[f].path, flows[f].rate, net.phases[f].hop;
    var net', l0 := Move(flows, limits, net, f), path[k];
    assert Books(flows, limits, net, l0) && Track(flows, net, f);
    PathSplit(path, k);
    RequestSlot(|flows|, net.links[l0], limits[l0], f, rate);
    hide Slots, Lookup, Held;
    assert Books(flows, limits, net, l0);
    BooksMove(flows, limits, net, net', f, l0, l0);
  }

  lemma ConfirmHop(flows: seq<Flow>, limits: seq<real>, net: Net, f: nat)
    requires Inv(flows, limits, net) && f < |flows| && net.phases[f].Confirming? && net.phases[f].hop < |flows[f].path|
    ensures Inv(flows, limits, Move(flows, limits, net, f))
  {
    var path, rate, k, ok := flows[f].path, flows[f].rate, net.phases[f].hop, net.phases[f].ok;
    var net', l0 := Move(flows, limits, net, f), path[k];
    assert Books(flows, limits, net, l0) && Track(flows, net, f) && Entered(flows, net, f, l0);
    PathSplit(path, k);
    ConfirmSlot(|flows|, net.links[l0], f, rate, ok);
    hide Lookup, Slots, Held;
    assert Entered(flows, net', f, l0);
    assert Local(flows, net, net', f, l0);
    ConfirmBooks(flows, limits, net, f);
    hide Books;
    assert Track(flows, net', f);
    InvFrom(flows, limits, net, net', f, l0);
  }

  lemma ConfirmBooks(flows: seq<Flow>, limits: seq<real>, net: Net, f: nat)
    requires Inv(flows, limits, net) && f < |flows| && net.phases[f].Confirming? && net.phases[f].hop < |flows[f].path|
    requires Local(flows, net, Move(flows, limits, net, f), f, flows[f].path[net.phases[f].hop])
    ensures Books(flows, limits, Move(flows, limits, net, f), flows[f].path[net.phases[f].hop])
  {
    var path, rate, k, ok := flows[f].path, flows[f].rate, net.phases[f].hop, net.phases[f].ok;
    var net', l0 := Move(flows, limits, net, f), path[k];
    assert Books(flows, limits, net, l0) && Track(flows, net, f);
    PathSplit(path, k);
    ConfirmSlot(|flows|, net.links[l0], f, rate, ok);
    hide Slots, Lookup, Held;
    BooksMove(flows, limits, net, net', f, l0, l0);
  }

  lemma TeardownHop(flows: seq<Flow>, limits: seq<real>, net: Net, f: nat)
    requires Inv(flows, limits, net) && f < |flows| && net.phases[f].TearingDown? && net.phases[f].hop < |flows[f].path|
    ensures Inv(flows, limits, Move(flows, limits, net, f))
  {
    var path, rate, k := flows[f].path, flows[f].rate, net.phases[f].hop;
    var net', l0 := Move(flows, limits, net, f), path[k];
    assert Books(flows, limits, net, l0) && Track(flows, net, f) && Entered(flows, net, f, l0);
    PathSplit(path, k);
    hide Slots;
    assert Entered(flows, net', f, l0);
    BooksMove(flows, limits, net, net', f, l0, l0);
    hide Books;
    InvFrom(flows, limits, net, net', f, l0);
  }

  /** A message at the end of its path, a start, or a stop: no link changes. */
  lemma PhaseStep(flows: seq<Flow>, limits: seq<real>, net: Net, e: Event)
    requires Inv(flows, limits, net) && Enabled(flows, net, e) && !e.Quit?
    requires Apply(flows, limits, net, e).links == net.links
    requires e.Hop? && (net.phases[e.flow].Requesting? || net.phases[e.flow].Confirming? || net.phases[e.flow].TearingDown?)
      ==> net.phases[e.flow].hop >= |flows[e.flow].path|
    ensures Inv(flows, limits, Apply(flows, limits, net, e))
  {
    var net', f, path := Apply(flows, limits, net, e), e.flow, flows[e.flow].path;
    assert Track(flows, net, f);
    assert path[..|path|] == path && path[0..] == path && path[..0] == [] && path[|path|..] == [];
    hide Books;
    assert Local(flows, net, net', f, -1);
    InvFrom(flows, limits, net, net', f, -1);
  }

  lemma ApplyKeepsInv(flows: seq<Flow>, limits: seq<real>, net: Net, e: Event)
    requires Inv(flows, limits, net) && !e.Quit?
    ensures Inv(flows, limits, Apply(flows, limits, net, e))
  {
    hide Books, Track, Entered;
    if Enabled(flows, net, e) {
      var f := e.flow;
      var path := flows[f].path;
      if e.Hop? && net.phases[f].Requesting? && net.phases[f].hop < |path| {
        RequestHop(flows, limits, net, f);
      } else if e.Hop? && net.phases[f].Confirming? && net.phases[f].hop < |path| {
        ConfirmHop(flows, limits, net, f);
      } else if e.Hop? && net.phases[f].TearingDown? && net.phases[f].hop < |path| {
        TeardownHop(flows, limits, net, f);
      } else {
        PhaseStep(flows, limits, net, e);
      }
    }
  }

  lemma {:induction false} NobodyHolds(flows: seq<Flow>, h: seq<bool>)
    requires |flows| == |h| && forall f | 0 <= f < |h| :: !h[f]
    ensures Sum(flows, h) == 0.0 && Number(h) == 0
  {
    if h != [] { NobodyHolds(flows[..|h| - 1], h[..|h| - 1]); }
  }

  lemma InitialInv(flows: seq<Flow>, limits: seq<real>, base: int)
    requires Setup(flows, limits)
    ensures Inv(flows, limits, Initial(flows, limits, base))
  {
    var net := Initial(flows, limits, base);
    forall l | 0 <= l < |limits| ensures Books(flows, limits, net, l) {
      NobodyHolds(flows, Holders(flows, net, l));
    }
  }

  lemma {:induction false} BaseStays(flows: seq<Flow>, limits: seq<real>, base: int, events: seq<Event>)
    requires Setup(flows, limits)
    ensures Exec(flows, limits, base, events).base == base
  {
    if events != [] {
      BaseStays(flows, limits, base, events[..|events| - 1]);
    }
  }

  lemma {:induction false} Reachable(flows: seq<Flow>, limits: seq<real>, base: int, events: seq<Event>)
    requires Setup(flows, limits) && Polite(events)
    ensures Inv(flows, limits, Exec(flows, limits, base, events))
  {
    hide Inv;
    if events == [] {
      InitialInv(flows, limits, base);
    } else {
      Reachable(flows, limits, base, events[..|events| - 1]);
      ApplyKeepsInv(flows, limits, Exec(flows, limits, base, events[..|events| - 1]), events[|events| - 1]);
    }
  }

  // ---------- the ledgers ----------

  /** What is entered on a link for the first n flows. */
  function Total(link: Link, n: nat): real {
    if n == 0 then 0.0 else Total(link, n - 1) + Held(link, n - 1)
  }

  lemma {:induction false} TotalMoves(link: Link, link': Link, n: nat, f: nat, x: real)
    requires forall g: nat :: Held(link', g) == Held(link, g) + if g == f then x else 0.0
    ensures Total(link', n) == Total(link, n) + if f < n then x else 0.0
  {
    if n > 0 { TotalMoves(link, link', n - 1, f, x); }
  }

  /** A link's reserved rate is the sum of its ledger. */
  predicate Conserving(flows: seq<Flow>, net: Net, l: nat)
    requires l < |net.links|
  {
    net.links[l].resv == Total(net.links[l], |flows|)
  }

  lemma MoveConserves(flows: seq<Flow>, limits: seq<real>, net: Net, f: nat, l: nat)
    requires Shape(flows, limits, net) && f < |flows| && l < |limits| && Conserving(flows, net, l)
    ensures Conserving(flows, Move(flows, limits, net, f), l)
  {
    hide Lookup;
    var link, link' := net.links[l], Move(flows, limits, net, f).links[l];
    TotalMoves(link, link', |flows|, f, link'.resv - link.resv);
  }

  /** In every run, polite or not, the rate reserved on a link is the sum of what its messages entered for the flows. */
  lemma {:induction false} LedgerConserved(flows: seq<Flow>, limits: seq<real>, base: int, events: seq<Event>, l: nat)
    requires Setup(flows, limits) && l < |limits|
    ensures Exec(flows, limits, base, events).links[l].resv == Total(Exec(flows, limits, base, events).links[l], |flows|)
  {
    hide Move;
    if events == [] {
      NothingEntered(Exec(flows, limits, base, events).links[l], |flows|);
    } else {
      var n := |events| - 1;
      LedgerConserved(flows, limits, base, events[..n], l);
      var net := Exec(flows, limits, base, events[..n]);
      if Enabled(flows, net, events[n]) { MoveConserves(flows, limits, net, events[n].flow, l); }
    }
  }

  lemma {:induction false} NothingEntered(link: Link, n: nat)
    requires link.ledger == map[]
    ensures Total(link, n) == 0.0
  {
    if n > 0 { NothingEntered(link, n - 1); }
  }

  // ---------- what follows for every run ----------

  /** Once a flow's CONFIRM has crossed its path, every link has exactly the flow's rate entered for it if it was accepted
      and the link is on the path, and nothing otherwise; and no link is undecided. With `LedgerConserved` these entries
      are what the reserved rates consist of. */
  lemma AllOrNothing(flows: seq<Flow>, limits: seq<real>, base: int, events: seq<Event>, f: nat)
    requires Setup(flows, limits) && Polite(events) && f < |flows|
    ensures var net := Exec(flows, limits, base, events);
      net.phases[f].Idle? || net.phases[f].Accepted? ==>
        forall l | 0 <= l < |limits| ::
          && f !in net.links[l].pending
          && Held(net.links[l], f) == if net.phases[f].Accepted? && l in flows[f].path then flows[f].rate else 0.0
  {
    Reachable(flows, limits, base, events);
    var net := Exec(flows, limits, base, events);
    assert Track(flows, net, f);
    hide Books;
    if net.phases[f].Idle? || net.phases[f].Accepted? {
      forall l | 0 <= l < |limits|
        ensures f !in net.links[l].pending
        ensures Held(net.links[l], f) == if net.phases[f].Accepted? && l in flows[f].path then flows[f].rate else 0.0
      {
        assert Entered(flows, net, f, l);
      }
    }
  }

  /** The REQUEST arrives with a good decision bit exactly if every link on the path has set the rate aside. */
  lemma Unanimous(flows: seq<Flow>, limits: seq<real>, base: int, events: seq<Event>, f: nat)
    requires Setup(flows, limits) && Polite(events) && f < |flows|
    ensures var net := Exec(flows, limits, base, events);
      net.phases[f].Requesting? && net.phases[f].hop == |flows[f].path| ==>
        && (net.phases[f].ok <==> forall l | 0 <= l < |limits| && l in flows[f].path :: f in net.links[l].pending)
        && (!net.halted ==> Apply(flows, limits, net, Hop(f)).phases[f] == Confirming(0, net.phases[f].ok))
  {
    Reachable(flows, limits, base, events);
    var net, path := Exec(flows, limits, base, events), flows[f].path;
    assert Track(flows, net, f) && path[..|path|] == path;
  }

  /** In any run a link sets a flow's rate aside if and only if it fits beside what the link has promised to the flows that
      hold it; the decision bit stays good exactly then, nothing else changes, and the program ends only for want of a slot
      in the table. */
  lemma AdmittedIfFits(flows: seq<Flow>, limits: seq<real>, base: int, events: seq<Event>, f: nat)
    requires Setup(flows, limits) && Polite(events) && f < |flows|
    requires var net := Exec(flows, limits, base, events);
      !net.halted && net.phases[f].Requesting? && net.phases[f].hop < |flows[f].path|
    ensures var net := Exec(flows, limits, base, events); flows[f].path[net.phases[f].hop] < |net.links| == |limits|
    ensures
      var net := Exec(flows, limits, base, events);
      var net', l, k := Apply(flows, limits, net, Hop(f)), flows[f].path[net.phases[f].hop], net.phases[f].hop;
      var promised := Sum(flows, Holders(flows, net, l));
      var fits := promised + flows[f].rate <= limits[l];
      && (net'.halted <==> fits && -1 !in net.links[l].pending)
      && (!net'.halted ==>
            && net'.phases == net.phases[f := Requesting(k + 1, net.phases[f].ok && fits)]
            && net'.links == net.links[l := net'.links[l]] && |net'.links| == |net.links|
            && (f in net'.links[l].pending <==> fits)
            && net'.links[l].resv == promised + if fits then flows[f].rate else 0.0)
  {
    Reachable(flows, limits, base, events);
    hide Exec, Holders, Sum, Slots;
    var net := Exec(flows, limits, base, events);
    var l := flows[f].path[net.phases[f].hop];
    assert Books(flows, limits, net, l) && Track(flows, net, f);
    NotYet(flows, net, f);
    RequestSlot(|flows|, net.links[l], limits[l], f, flows[f].rate);
  }

  /** A REQUEST under way has not been where it goes next. */
  lemma NotYet(flows: seq<Flow>, net: Net, f: nat)
    requires f < |flows| == |net.phases| && Track(flows, net, f) && NoRepeats(flows[f].path)
    requires net.phases[f].Requesting? && net.phases[f].hop < |flows[f].path|
    ensures var l := flows[f].path[net.phases[f].hop]; l < |net.links| ==> f !in net.links[l].pending
  {
  }

  /** The flows that were accepted and cross link l. */
  function AcceptedOn(flows: seq<Flow>, net: Net, l: nat): (h: seq<bool>)
    requires |flows| == |net.phases|
    ensures |h| == |flows|
  {
    seq(|flows|, f requires 0 <= f < |flows| == |net.phases| => net.phases[f].Accepted? && l in flows[f].path)
  }

  /** When no message is under way, a link has reserved exactly the rates of the accepted flows that cross it, and its
      table of undecided flows is empty. */
  lemma QuietBooks(flows: seq<Flow>, limits: seq<real>, base: int, events: seq<Event>, l: nat)
    requires Setup(flows, limits) && Polite(events) && l < |limits|
    ensures var net := Exec(flows, limits, base, events);
      (forall f | 0 <= f < |flows| :: net.phases[f].Idle? || net.phases[f].Accepted?) ==>
        && net.links[l].resv == Sum(flows, AcceptedOn(flows, net, l))
        && net.links[l].numfl == base + Number(AcceptedOn(flows, net, l))
        && forall j | 0 <= j < |net.links[l].pending| :: net.links[l].pending[j] == -1
  {
    Reachable(flows, limits, base, events);
    BaseStays(flows, limits, base, events);
    var net := Exec(flows, limits, base, events);
    assert Books(flows, limits, net, l);
    if forall f | 0 <= f < |flows| :: net.phases[f].Idle? || net.phases[f].Accepted? {
      assert Holders(flows, net, l) == AcceptedOn(flows, net, l) by {
        forall f | 0 <= f < |flows| ensures Holds(flows, net, f, l) == AcceptedOn(flows, net, l)[f] {
          assert Track(flows, net, f);
        }
      }
      forall f | 0 <= f < |flows| ensures f !in net.links[l].pending {
        assert Track(flows, net, f);
      }
      forall j | 0 <= j < |net.links[l].pending| ensures net.links[l].pending[j] == -1 {
        assert net.links[l].pending[j] in net.links[l].pending;
      }
    }
  }

  /** A link never promises more than its limit, nor less than nothing, whatever messages are under way. */
  lemma NeverOverbooked(flows: seq<Flow>, limits: seq<real>, base: int, events: seq<Event>, l: nat)
    requires Setup(flows, limits) && Polite(events) && l < |limits|
    ensures var link := Exec(flows, limits, base, events).links[l];
      0.0 <= link.resv <= limits[l] && link.numfl >= base
  {
    Reachable(flows, limits, base, events);
    BaseStays(flows, limits, base, events);
    var net := Exec(flows, limits, base, events);
    assert Books(flows, limits, net, l);
    SumNonneg(flows, Holders(flows, net, l));
  }

  lemma {:induction false} SumNonneg(flows: seq<Flow>, h: seq<bool>)
    requires |flows| == |h| && forall f | 0 <= f < |flows| :: flows[f].rate >= 0.0
    ensures Sum(flows, h) >= 0.0
  {
    if h != [] { SumNonneg(flows[..|h| - 1], h[..|h| - 1]); }
  }

  // ---------- a source that stops although it was not accepted ----------

  /** A TEARDOWN leaves a link with the sum over the other holders exactly if the flow held a reservation there: one
      sent for a rejected flow breaks the books. */
  lemma TeardownNeedsHolder(flows: seq<Flow>, limits: seq<real>, net: Net, f: nat, l: nat)
    requires Inv(flows, limits, net) && f < |flows| && l < |limits|
    ensures var link, others := OnTeardown(net.links[l], f, flows[f].rate), Holders(flows, net, l)[f := false];
      link.resv == Sum(flows, others) && link.numfl == net.base + Number(others) <==> Holds(flows, net, f, l)
  {
    assert Books(flows, limits, net, l);
    SumUpdate(flows, Holders(flows, net, l), f, false);
  }

  /** In whatever polite run: when the source of a flow that is not accepted stops anyway, the first link its TEARDOWN
      reaches has less reserved than its holders were promised, by the flow's rate. */
  lemma QuitTakesFromOthers(flows: seq<Flow>, limits: seq<real>, base: int, events: seq<Event>, f: nat)
    requires Setup(flows, limits) && Polite(events) && f < |flows| && flows[f].path != []
    requires var net := Exec(flows, limits, base, events); !net.halted && net.phases[f].Idle?
    ensures var l := flows[f].path[0];
      var net, net' := Exec(flows, limits, base, events), Exec(flows, limits, base, events + [Quit(f), Hop(f)]);
      && Held(net'.links[l], f) == -flows[f].rate
      && net'.links[l].resv == Sum(flows, Holders(flows, net, l)) - flows[f].rate
  {
    Reachable(flows, limits, base, events);
    var net, l := Exec(flows, limits, base, events), flows[f].path[0];
    assert Books(flows, limits, net, l) && Entered(flows, net, f, l);
    var two := events + [Quit(f), Hop(f)];
    assert two[..|two| - 1] == events + [Quit(f)] && (events + [Quit(f)])[..|events|] == events;
    var quit := Apply(flows, limits, net, Quit(f));
    assert Exec(flows, limits, base, events + [Quit(f)]) == quit;
    assert Exec(flows, limits, base, two) == Apply(flows, limits, quit, Hop(f));
  }

  /** A request that does not fit is refused, and its CONFIRM clears the link. */
  lemma RefusedRun(flow: Flow)
    requires flow == Flow([0], 2.0)
    ensures
      var net, net' := Exec([flow], [1.0], 0, []), Exec([flow], [1.0], 0, [Start(0), Hop(0), Hop(0), Hop(0), Hop(0)]);
      |net'.phases| == |net'.links| == 1 && !net'.halted && net'.phases[0].Idle? && net'.links[0] == net.links[0]
  {
    var flows, limits := [flow], [1.0];
    var e1 := [Start(0)];
    var e2, e3, e4, e5 := e1 + [Hop(0)], e1 + [Hop(0), Hop(0)], e1 + [Hop(0), Hop(0), Hop(0)], e1 + [Hop(0), Hop(0), Hop(0), Hop(0)];
    assert e1[..0] == [] && e2[..1] == e1 && e3[..2] == e2 && e4[..3] == e3 && e5[..4] == e4;
    var n0 := Exec(flows, limits, 0, []);
    var n1 := Apply(flows, limits, n0, Start(0));
    assert Exec(flows, limits, 0, e1) == n1 && n1.phases[0] == Requesting(0, true) && n1.links == n0.links;
    var n2 := Apply(flows, limits, n1, Hop(0));
    assert Exec(flows, limits, 0, e2) == n2 && n2.phases[0] == Requesting(1, false) && n2.links[0] == n0.links[0];
    var n3 := Apply(flows, limits, n2, Hop(0));
    assert Exec(flows, limits, 0, e3) == n3 && n3.phases[0] == Confirming(0, false) && n3.links == n2.links;
    NotPending(n0.links[0].pending);
    var n4 := Apply(flows, limits, n3, Hop(0));
    assert Exec(flows, limits, 0, e4) == n4 && n4.phases[0] == Confirming(1, false) && n4.links[0] == n0.links[0];
    var n5 := Apply(flows, limits, n4, Hop(0));
    assert Exec(flows, limits, 0, e5) == n5 && n5.phases[0] == Idle && n5.links[0] == n0.links[0];
    assert e5 == [Start(0), Hop(0), Hop(0), Hop(0), Hop(0)];
  }

  /** One flow, one link that cannot carry it: requested, refused, and stopped all the same, it leaves the link with
      less than nothing reserved. */
  lemma RefusedThenStopped(flow: Flow)
    requires flow == Flow([0], 2.0)
    ensures
      var events := [Start(0), Hop(0), Hop(0), Hop(0), Hop(0)];
      var net, net' := Exec([flow], [1.0], 0, events), Exec([flow], [1.0], 0, events + [Quit(0), Hop(0)]);
      net.phases[0].Idle? && net.links[0].resv == 0.0 && net'.links[0].resv == -2.0
  {
    hide Exec, Apply;
    var flows, limits, events := [flow], [1.0], [Start(0), Hop(0), Hop(0), Hop(0), Hop(0)];
    RefusedRun(flow);
    Booted(flows, limits);
    assert Polite(events);
    QuitTakesFromOthers(flows, limits, 0, events, 0);
    Reachable(flows, limits, 0, events);
  }

  lemma Booted(flows: seq<Flow>, limits: seq<real>)
    requires Setup(flows, limits) && |limits| > 0
    ensures |Exec(flows, limits, 0, []).links| > 0 && Exec(flows, limits, 0, []).links[0].resv == 0.0
  {
  }

  lemma NotPending(pending: seq<int>)
    requires forall j | 0 <= j < |pending| :: pending[j] == -1
    ensures Lookup(pending, 0) == -1
  {
  }
}
