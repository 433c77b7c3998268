/** The routing agent's send buffer: packets wait for a route, for at most 30 seconds, at most 64 of them. What the
    linked queue does, on sequences of packets; and what follows over runs with a clock that does not go back. */
module SendBuffer {

  const LIMIT := 64
  const TIMEOUT := 30.0

  /** A waiting packet and the time it times out. */
  datatype Item = Item(id: nat, dst: int, ts: real)

  datatype Option<T> = None | Some(value: T)

  predicate Aged(x: Item, now: real) {
    x.ts < now
  }

  /** The packets that have not timed out, in order. */
  function Live(q: seq<Item>, now: real): seq<Item> {
    if q == [] then []
    else if Aged(q[|q| - 1], now) then Live(q[..|q| - 1], now) else Live(q[..|q| - 1], now) + [q[|q| - 1]]
  }

  lemma {:induction false} LiveHas(q: seq<Item>, now: real)
    ensures |Live(q, now)| <= |q| && forall x :: x in Live(q, now) <==> x in q && !Aged(x, now)
  {
    if q != [] {
      LiveHas(q[..|q| - 1], now);
      assert q == q[..|q| - 1] + [q[|q| - 1]];
    }
  }

  /** The first packet for `dst`, or the length of the queue. */
  function First(q: seq<Item>, dst: int): (i: nat)
    ensures i <= |q| && (forall k | 0 <= k < i :: q[k].dst != dst) && (i < |q| ==> q[i].dst == dst)
  {
    if q == [] || q[0].dst == dst then 0 else 1 + First(q[1..], dst)
  }

  function Without(q: seq<Item>, i: nat): seq<Item>
    requires i < |q|
  {
    q[..i] + q[i + 1..]
  }

  /** Purges, drops the head if the queue is full, and appends. The packet dropped comes second. */
  function Enque(q: seq<Item>, now: real, id: nat, dst: int): (seq<Item>, Option<Item>) {
    var l, x := Live(q, now), Item(id, dst, now + TIMEOUT);
    if |l| == LIMIT then (l[1..] + [x], Some(l[0])) else (l + [x], None)
  }

  function Deque(q: seq<Item>, now: real): (seq<Item>, Option<Item>) {
    var l := Live(q, now);
    if l == [] then ([], None) else (l[1..], Some(l[0]))
  }

  function DequeFor(q: seq<Item>, now: real, dst: int): (seq<Item>, Option<Item>) {
    var l := Live(q, now);
    var i := First(l, dst);
    if i == |l| then (l, None) else (Without(l, i), Some(l[i]))
  }

  // ---------- purging ----------

  predicate Sorted(q: seq<Item>) {
    forall i, j | 0 <= i < j < |q| :: q[i].ts <= q[j].ts
  }

  /** The purge that looks at the head only. */
  function HeadPurge(q: seq<Item>, now: real): seq<Item> {
    if q != [] && Aged(q[0], now) then HeadPurge(q[1..], now) else q
  }

  lemma LiveSnoc(q: seq<Item>, x: Item, now: real)
    ensures Live(q + [x], now) == Live(q, now) + if Aged(x, now) then [] else [x]
  {
    assert (q + [x])[..|q|] == q;
  }

  lemma LiveEmpty(now: real)
    ensures Live([], now) == []
  {
  }

  lemma {:induction false} LiveJoin(a: seq<Item>, b: seq<Item>, now: real)
    ensures Live(a + b, now) == Live(a, now) + Live(b, now)
    decreases |b|
  {
    hide Live, Aged;
    if b == [] {
      LiveEmpty(now);
      assert a + b == a;
    } else {
      var b', x := b[..|b| - 1], b[|b| - 1];
      LiveJoin(a, b', now);
      LiveSnoc(b', x, now);
      LiveSnoc(a + b', x, now);
      assert b == b' + [x] && a + b == (a + b') + [x];
    }
  }

  lemma {:induction false} AllLive(q: seq<Item>, now: real)
    requires forall x | x in q :: !Aged(x, now)
    ensures Live(q, now) == q
  {
    if q != [] {
      AllLive(q[..|q| - 1], now);
      assert q == q[..|q| - 1] + [q[|q| - 1]];
    }
  }

  lemma LiveOne(x: Item, now: real)
    ensures Live([x], now) == if Aged(x, now) then [] else [x]
  {
    assert [x][..0] == [];
  }

  /** Taking a timed-out packet out by hand does not change what is live. */
  lemma LiveWithout(q: seq<Item>, i: nat, now: real)
    requires i < |q| && Aged(q[i], now)
    ensures Live(Without(q, i), now) == Live(q, now)
  {
    LiveMiddle(q[..i], q[i], q[i + 1..], now);
    assert q == q[..i] + [q[i]] + q[i + 1..];
  }

  lemma LiveMiddle(a: seq<Item>, x: Item, b: seq<Item>, now: real)
    requires Aged(x, now)
    ensures Live(a + b, now) == Live(a + [x] + b, now)
  {
    LiveOne(x, now);
    hide Live;
    LiveJoin(a, b, now);
    LiveJoin(a, [x], now);
    LiveJoin(a + [x], b, now);
  }

  /** In a queue in order of time, purging anywhere comes to the same as purging at the head. */
  lemma {:induction false} HeadIsEnough(q: seq<Item>, now: real)
    requires Sorted(q)
    ensures Live(q, now) == HeadPurge(q, now)
    decreases |q|
  {
    if q != [] && Aged(q[0], now) {
      LiveWithout(q, 0, now);
      assert Without(q, 0) == q[1..];
      HeadIsEnough(q[1..], now);
    } else {
      AllLive(q, now);
    }
  }

  // ---------- runs ----------

  datatype Event = Put(at: real, id: nat, dst: int) | Take(at: real) | TakeFor(at: real, dst: int)

  /** A run: the queue, the time of the last event, the packets put in, and those that left, however they did. */
  datatype Run = Run(q: seq<Item>, clock: real, put: seq<Item>, taken: seq<Item>, dropped: seq<Item>, purged: seq<Item>)

  /** The packets that a purge removes. */
  function Dead(q: seq<Item>, now: real): seq<Item> {
    if q == [] then []
    else if Aged(q[|q| - 1], now) then Dead(q[..|q| - 1], now) + [q[|q| - 1]] else Dead(q[..|q| - 1], now)
  }

  function AsSeq(x: Option<Item>): seq<Item> {
    if x.Some? then [x.value] else []
  }

  function Step(r: Run, e: Event): Run {
    if e.at < r.clock then r
    else
      var purged := r.purged + Dead(r.q, e.at);
      match e
      case Put(at, id, dst) =>
        var (q, lost) := Enque(r.q, at, id, dst);
        Run(q, at, r.put + [Item(id, dst, at + TIMEOUT)], r.taken, r.dropped + AsSeq(lost), purged)
      case Take(at) =>
        var (q, x) := Deque(r.q, at);
        Run(q, at, r.put, r.taken + AsSeq(x), r.dropped, purged)
      case TakeFor(at, dst) =>
        var (q, x) := DequeFor(r.q, at, dst);
        Run(q, at, r.put, r.taken + AsSeq(x), r.dropped, purged)
  }

  function Exec(events: seq<Event>): Run {
    if events == [] then Run([], 0.0, [], [], [], [])
    else Step(Exec(events[..|events| - 1]), events[|events| - 1])
  }

  // ---------- what the drop target is told ----------

  datatype Reason = QFull | QTimeout

  datatype Notice = Notice(packet: Item, reason: Reason)

  /** The reason given for a packet that makes way for another. */
  function ReasonFor(x: Item, now: real): Reason {
    if x.ts > now then QFull else QTimeout
  }

  function Notices(lost: Option<Item>, now: real): seq<Notice> {
    if lost.Some? then [Notice(lost.value, ReasonFor(lost.value, now))] else []
  }

  function Told(events: seq<Event>): seq<Notice> {
    if events == [] then []
    else
      var n := |events| - 1;
      var r, e := Exec(events[..n]), events[n];
      Told(events[..n]) + if e.at < r.clock || !e.Put? then [] else Notices(Enque(r.q, e.at, e.id, e.dst).1, e.at)
  }

  /** The packets that the purge at the head takes off, and told the drop target of when it was in use. */
  function HeadDrops(q: seq<Item>, now: real): seq<Item> {
    if q != [] && Aged(q[0], now) then [q[0]] + HeadDrops(q[1..], now) else []
  }

  /** Packets are in order of time, none times out more than 30 seconds from now, and there is room for all. */
  predicate Orderly(q: seq<Item>, clock: real) {
    Sorted(q) && |q| <= LIMIT && forall x | x in q :: x.ts <= clock + TIMEOUT
  }

  /** Every packet put in is in the queue, or left in exactly one way. */
  predicate Accounted(r: Run) {
    multiset(r.put) == multiset(r.q) + multiset(r.taken) + multiset(r.dropped) + multiset(r.purged)
  }

  lemma {:induction false} LiveOrderly(q: seq<Item>, clock: real, now: real)
    requires Orderly(q, clock) && clock <= now
    ensures Orderly(Live(q, now), now)
  {
    LiveHas(q, now);
    HeadIsEnough(q, now);
    HeadPurgeIsTail(q, now);
  }

  lemma {:induction false} HeadPurgeIsTail(q: seq<Item>, now: real)
    ensures exists k | 0 <= k <= |q| :: HeadPurge(q, now) == q[k..]
  {
    if q != [] && Aged(q[0], now) {
      HeadPurgeIsTail(q[1..], now);
      var k :| 0 <= k <= |q[1..]| && HeadPurge(q[1..], now) == q[1..][k..];
      assert q[1..][k..] == q[k + 1..];
    } else {
      assert q == q[0..];
    }
  }

  lemma DeadSnoc(q: seq<Item>, x: Item, now: real)
    ensures Dead(q + [x], now) == Dead(q, now) + if Aged(x, now) then [x] else []
  {
    assert (q + [x])[..|q|] == q;
  }

  lemma DeadEmpty(now: real)
    ensures Dead([], now) == []
  {
  }

  lemma {:induction false} LiveAndDead(q: seq<Item>, now: real)
    ensures multiset(q) == multiset(Live(q, now)) + multiset(Dead(q, now))
  {
    hide Live, Dead, Aged;
    if q == [] {
      LiveEmpty(now);
      DeadEmpty(now);
    } else {
      var q', x := q[..|q| - 1], q[|q| - 1];
      LiveAndDead(q', now);
      LiveSnoc(q', x, now);
      DeadSnoc(q', x, now);
      OneIn(q', x, Live(q', now), Dead(q', now), Aged(x, now));
      assert q == q' + [x];
    }
  }

  lemma OneIn(q: seq<Item>, x: Item, live: seq<Item>, dead: seq<Item>, aged: bool)
    requires multiset(q) == multiset(live) + multiset(dead)
    ensures multiset(q + [x]) == multiset(live + if aged then [] else [x]) + multiset(dead + if aged then [x] else [])
  {
    assert live + [] == live && dead + [] == dead;
  }

  lemma OutOf(q: seq<Item>, i: nat)
    requires i < |q|
    ensures multiset(q) == multiset(Without(q, i)) + multiset([q[i]])
    ensures i == 0 ==> Without(q, i) == q[1..]
  {
    assert q == q[..i] + [q[i]] + q[i + 1..];
  }

  lemma WithoutOrderly(q: seq<Item>, i: nat, clock: real)
    requires Orderly(q, clock) && i < |q|
    ensures Orderly(Without(q, i), clock)
  {
  }

  /** One packet leaves the queue of live packets. */
  lemma LeaveKeeps(l: seq<Item>, i: nat, at: real)
    requires Orderly(l, at) && i < |l|
    ensures Orderly(Without(l, i), at) && multiset(l) == multiset(Without(l, i)) + multiset([l[i]])
    ensures i == 0 ==> Without(l, i) == l[1..]
    ensures |Without(l, i)| == |l| - 1
  {
    OutOf(l, i);
    WithoutOrderly(l, i, at);
  }

  lemma EnterKeeps(l: seq<Item>, id: nat, dst: int, at: real)
    requires Orderly(l, at) && |l| < LIMIT
    ensures Orderly(l + [Item(id, dst, at + TIMEOUT)], at)
  {
    assert forall i | 0 <= i < |l| :: l[i] in l;
  }

  lemma Purged(r: Run, at: real)
    requires Orderly(r.q, r.clock) && Accounted(r) && at >= r.clock
    ensures Orderly(Live(r.q, at), at)
    ensures Accounted(Run(Live(r.q, at), at, r.put, r.taken, r.dropped, r.purged + Dead(r.q, at)))
  {
    LiveOrderly(r.q, r.clock, at);
    LiveAndDead(r.q, at);
  }

  lemma OrderlyFits(q: seq<Item>, clock: real)
    requires Orderly(q, clock)
    ensures |q| <= LIMIT
  {
  }

  lemma PutKeeps(r: Run, at: real, id: nat, dst: int)
    requires Orderly(r.q, r.clock) && Accounted(r) && at >= r.clock
    ensures var r' := Step(r, Put(at, id, dst)); Orderly(r'.q, at) && Accounted(r')
  {
    hide Live, Dead, Orderly, Without, Accounted;
    Purged(r, at);
    var l, x := Live(r.q, at), Item(id, dst, at + TIMEOUT);
    var purged := r.purged + Dead(r.q, at);
    OrderlyFits(l, at);
    if |l| == LIMIT {
      LeaveKeeps(l, 0, at);
      EnterKeeps(l[1..], id, dst, at);
      Overflow(Run(l, at, r.put, r.taken, r.dropped, purged), x);
    } else {
      EnterKeeps(l, id, dst, at);
      CountEnter(Run(l, at, r.put, r.taken, r.dropped, purged), x);
      assert r.dropped + [] == r.dropped;
    }
  }

  /** The head makes way for a new packet. */
  lemma Overflow(r: Run, x: Item)
    requires Accounted(r) && r.q != []
    ensures Accounted(r.(q := r.q[1..] + [x], put := r.put + [x], dropped := r.dropped + [r.q[0]]))
  {
    OutOf(r.q, 0);
    var lost := r.(q := r.q[1..], dropped := r.dropped + [r.q[0]]);
    CountLeave(multiset(r.put), multiset(lost.q), multiset(r.taken), multiset(r.dropped), multiset(r.purged), multiset([r.q[0]]));
    assert Accounted(lost);
    CountEnter(lost, x);
  }

  lemma CountLeave(put: multiset<Item>, q: multiset<Item>, taken: multiset<Item>, dropped: multiset<Item>,
                   purged: multiset<Item>, x: multiset<Item>)
    requires put == (q + x) + taken + dropped + purged
    ensures put == q + (taken + x) + dropped + purged && put == q + taken + (dropped + x) + purged
  {
  }

  lemma CountEnter(r: Run, x: Item)
    requires Accounted(r)
    ensures Accounted(r.(q := r.q + [x], put := r.put + [x]))
  {
  }

  lemma TakeKeeps(r: Run, at: real, i: nat)
    requires Orderly(r.q, r.clock) && Accounted(r) && at >= r.clock && i < |Live(r.q, at)|
    ensures
      var l := Live(r.q, at);
      && Orderly(Without(l, i), at) && (i == 0 ==> Without(l, i) == l[1..])
      && Accounted(Run(Without(l, i), at, r.put, r.taken + [l[i]], r.dropped, r.purged + Dead(r.q, at)))
  {
    hide Live, Dead, Orderly, Without;
    Purged(r, at);
    var l := Live(r.q, at);
    LeaveKeeps(l, i, at);
    var purged := r.purged + Dead(r.q, at);
    CountLeave(multiset(r.put), multiset(Without(l, i)), multiset(r.taken), multiset(r.dropped), multiset(purged), multiset([l[i]]));
  }

  lemma StepKeeps(r: Run, e: Event)
    requires Orderly(r.q, r.clock) && Accounted(r)
    ensures Orderly(Step(r, e).q, Step(r, e).clock) && Accounted(Step(r, e))
  {
    hide Live, Dead, Orderly, Accounted, Without, First, Enque;
    if e.at >= r.clock {
      Purged(r, e.at);
      var l := Live(r.q, e.at);
      assert r.taken + [] == r.taken;
      match e {
        case Put(at, id, dst) => PutKeeps(r, at, id, dst);
        case Take(at) =>
          if l != [] { TakeKeeps(r, at, 0); }
        case TakeFor(at, dst) =>
          if First(l, dst) < |l| { TakeKeeps(r, at, First(l, dst)); }
      }
    }
  }

  lemma {:induction false} Reachable(events: seq<Event>)
    ensures var r := Exec(events); Orderly(r.q, r.clock) && Accounted(r)
  {
    if events != [] {
      Reachable(events[..|events| - 1]);
      hide Step;
      StepKeeps(Exec(events[..|events| - 1]), events[|events| - 1]);
    }
  }

  /** In every run: the buffer is a queue in order of time of at most 64 packets, every packet put in is accounted for
      exactly once, and purging anywhere is purging at the head. */
  lemma EveryRun(events: seq<Event>, now: real)
    ensures var r := Exec(events);
      Sorted(r.q) && |r.q| <= LIMIT && Accounted(r) && Live(r.q, now) == HeadPurge(r.q, now)
  {
    Reachable(events);
    HeadIsEnough(Exec(events).q, now);
  }

  /** Taking a packet for a destination yields the one that has waited longest among those not timed out, and only
      fails when there is none. */
  lemma OldestForDestination(events: seq<Event>, now: real, dst: int)
    ensures var q := Exec(events).q; var (_, x) := DequeFor(q, now, dst);
      if x.Some? then
        && x.value in q && x.value.dst == dst && !Aged(x.value, now)
        && (forall y | y in q && y.dst == dst && !Aged(y, now) :: x.value.ts <= y.ts)
      else forall y | y in q && y.dst == dst :: Aged(y, now)
  {
    Reachable(events);
    OldestFirst(Exec(events).q, now, dst);
  }

  lemma OldestFirst(q: seq<Item>, now: real, dst: int)
    requires Sorted(q)
    ensures var (_, x) := DequeFor(q, now, dst);
      if x.Some? then
        && x.value in q && x.value.dst == dst && !Aged(x.value, now)
        && (forall y | y in q && y.dst == dst && !Aged(y, now) :: x.value.ts <= y.ts)
      else forall y | y in q && y.dst == dst :: Aged(y, now)
  {
    hide Aged;
    LiveSorted(q, now);
    LiveHas(q, now);
    var l := Live(q, now);
    var i := First(l, dst);
    hide Live, First;
    forall y | y in l && y.dst == dst ensures i < |l| && l[i].ts <= y.ts {
      var k :| 0 <= k < |l| && l[k] == y;
    }
    if i < |l| { assert l[i] in l; }
  }

  /** Taking any packet yields the one that has waited longest among those not timed out, and only fails when there is none;
      all others not timed out stay. */
  lemma OldestOfAll(events: seq<Event>, now: real)
    ensures var q := Exec(events).q; var (q', x) := Deque(q, now);
      && (x.None? <==> forall y | y in q :: Aged(y, now))
      && (x.Some? ==> x.value in q && !Aged(x.value, now) && forall y | y in q && !Aged(y, now) :: x.value.ts <= y.ts)
      && (forall y | y in q && !Aged(y, now) :: y in q' || x == Some(y)) && (forall y | y in q' :: y in q && !Aged(y, now))
      && (x.Some? ==> Live(q, now) == [x.value] + q')
  {
    Reachable(events);
    var q := Exec(events).q;
    hide Exec, Aged, Live;
    var l := Live(q, now);
    LiveSorted(q, now);
    LiveHas(q, now);
    if l != [] {
      assert l == [l[0]] + l[1..] && l[0] in l;
      forall y | y in l ensures l[0].ts <= y.ts {
        var k :| 0 <= k < |l| && l[k] == y;
      }
    }
  }

  /** The new packet is always let in, as the last. A packet that has not timed out makes way only if the buffer is full, one
      at most, and then it is the one that has waited longest. */
  lemma MakesWay(events: seq<Event>, now: real, id: nat, dst: int)
    ensures var q := Exec(events).q; var (q', lost) := Enque(q, now, id, dst);
      && q' != [] && q'[|q'| - 1] == Item(id, dst, now + TIMEOUT)
      && Live(q, now) + [Item(id, dst, now + TIMEOUT)] == (if lost.Some? then [lost.value] else []) + q'
      && (lost.Some? ==> |q'| == LIMIT && forall y | y in q && !Aged(y, now) :: lost.value.ts <= y.ts)
      && |q'| <= LIMIT
  {
    Reachable(events);
    var q := Exec(events).q;
    hide Exec, Aged, Live;
    var l, x := Live(q, now), Item(id, dst, now + TIMEOUT);
    LiveSorted(q, now);
    LiveHas(q, now);
    if |l| == LIMIT {
      assert l == [l[0]] + l[1..];
      assert l + [x] == [l[0]] + (l[1..] + [x]);
      forall y | y in l ensures l[0].ts <= y.ts {
        var k :| 0 <= k < |l| && l[k] == y;
      }
    }
  }

  lemma LiveSorted(q: seq<Item>, now: real)
    requires Sorted(q)
    ensures Sorted(Live(q, now))
  {
    HeadIsEnough(q, now);
    HeadPurgeIsTail(q, now);
  }

  lemma {:induction false} DeadJoin(a: seq<Item>, b: seq<Item>, now: real)
    ensures Dead(a + b, now) == Dead(a, now) + Dead(b, now)
    decreases |b|
  {
    hide Dead, Aged;
    if b == [] {
      DeadEmpty(now);
      assert a + b == a;
    } else {
      var b', x := b[..|b| - 1], b[|b| - 1];
      DeadJoin(a, b', now);
      DeadSnoc(b', x, now);
      DeadSnoc(a + b', x, now);
      assert b == b' + [x] && a + b == (a + b') + [x];
    }
  }

  lemma {:induction false} NoneDead(q: seq<Item>, now: real)
    requires forall x | x in q :: !Aged(x, now)
    ensures Dead(q, now) == []
  {
    if q != [] {
      NoneDead(q[..|q| - 1], now);
      assert q == q[..|q| - 1] + [q[|q| - 1]];
    }
  }

  lemma {:induction false} HeadDropsAreDead(q: seq<Item>, now: real)
    requires Sorted(q)
    ensures HeadDrops(q, now) == Dead(q, now)
  {
    if q != [] && Aged(q[0], now) {
      HeadDropsAreDead(q[1..], now);
      DeadJoin([q[0]], q[1..], now);
      DeadSnoc([], q[0], now);
      assert q == [q[0]] + q[1..] && [] + [q[0]] == [q[0]];
    } else {
      NoneDead(q, now);
    }
  }

  /** What makes way has not timed out; the reason given is a time-out only if it does so at this very moment. */
  lemma Evicted(q: seq<Item>, now: real, id: nat, dst: int)
    ensures var lost := Enque(q, now, id, dst).1;
            lost.Some? ==>
              && lost.value in q && lost.value.ts >= now
              && (ReasonFor(lost.value, now) == QTimeout <==> lost.value.ts == now)
  {
    LiveHas(q, now);
    if |Live(q, now)| == LIMIT { assert Live(q, now)[0] in Live(q, now); }
  }

  lemma {:induction false} ToldInOrder(events: seq<Event>)
    ensures var r, told := Exec(events), Told(events);
            |told| == |r.dropped| && forall i | 0 <= i < |told| :: told[i].packet == r.dropped[i]
    decreases |events|
  {
    hide Live, Dead, Enque;
    if events != [] {
      ToldInOrder(events[..|events| - 1]);
    }
  }

  /** In every run the drop target is told of exactly the packets that made way for others, in order.  Of those a
      purge removes it is told nothing, though they are just those the purge at the head would have told it of. */
  lemma PurgedUntold(events: seq<Event>, now: real)
    ensures var r, told := Exec(events), Told(events);
            && |told| == |r.dropped| && (forall i | 0 <= i < |told| :: told[i].packet == r.dropped[i])
            && multiset(r.put) == multiset(r.q) + multiset(r.taken) + multiset(r.dropped) + multiset(r.purged)
            && Dead(r.q, now) == HeadDrops(r.q, now)
  {
    hide Exec, Told, Dead, HeadDrops;
    Reachable(events);
    ToldInOrder(events);
    HeadDropsAreDead(Exec(events).q, now);
  }

  /** A packet times out and is purged, and the drop target hears nothing of it. */
  lemma PurgeIsSilent(id: nat, dst: int)
    ensures var events := [Put(0.0, id, dst), Take(31.0)];
            var r := Exec(events);
            r.q == [] && r.taken == [] && r.purged == [Item(id, dst, TIMEOUT)] && Told(events) == []
  {
    var events := [Put(0.0, id, dst), Take(31.0)];
    var x := Item(id, dst, TIMEOUT);
    assert events[..1] == [Put(0.0, id, dst)] && events[..1][..0] == [];
    LiveEmpty(0.0);
    DeadEmpty(0.0);
    assert [] + [x] == [x];
    assert Exec(events[..1]) == Run([x], 0.0, [x], [], [], []);
    assert Told(events[..1]) == [];
    LiveSnoc([], x, 31.0);
    DeadSnoc([], x, 31.0);
    LiveEmpty(31.0);
    DeadEmpty(31.0);
  }
}
