/** The token bucket filter: packets pass while there are tokens for them, others wait for a timer. Times, tokens and
    rates are reals; packet sizes are whole bytes. */
module TokenBucket {

  datatype Config = Config(rate: real, bucket: real, qlen: int)

  datatype Timer = Idle | Pending(at: real)

  /** `init` until the first packet; `queue` holds the sizes of the packets waiting, in bytes. */
  datatype State = State(init: bool, tokens: real, last: real, queue: seq<nat>, timer: Timer)

  datatype Verdict = Sent | Queued | Dropped

  function Bits(bytes: nat): (b: real)
    ensures b >= 0.0
  {
    (bytes * 8) as real
  }

  /** The tokens earned in a time d. */
  function Earn(c: Config, d: real): real {
    d * c.rate
  }

  function Refill(c: Config, st: State, now: real): State {
    var more := st.tokens + Earn(c, now - st.last);
    st.(tokens := if more > c.bucket then c.bucket else more, last := now)
  }

  /** A packet arrives. */
  function OnRecv(c: Config, before: State, now: real, bytes: nat): (State, Verdict)
    requires c.rate > 0.0
  {
    var st := if before.init then before.(tokens := c.bucket, last := now, init := false) else before;
    if st.queue != [] then
      if |st.queue| < c.qlen then (st.(queue := st.queue + [bytes]), Queued) else (st, Dropped)
    else
      var st := Refill(c, st, now);
      if st.tokens >= Bits(bytes) then (st.(tokens := st.tokens - Bits(bytes)), Sent)
      else if c.qlen != 0
      then (st.(queue := st.queue + [bytes], timer := Pending(now + (Bits(bytes) - st.tokens) / c.rate)), Queued)
      else (st, Dropped)
  }

  /** The timer fires: the head of the queue goes out unchecked, and the timer is set for the next packet. */
  function OnTimeout(c: Config, before: State, now: real): State
    requires c.rate > 0.0 && before.queue != []
  {
    var st := Refill(c, before.(queue := before.queue[1..]), now);
    var st := st.(tokens := st.tokens - Bits(before.queue[0]));
    if st.queue != [] then st.(timer := Pending(now + (Bits(st.queue[0]) - st.tokens) / c.rate))
    else st.(timer := Idle)
  }

  // ---------- runs ----------

  datatype Release = Release(at: real, bytes: nat)

  datatype Event = Arrive(at: real, bytes: nat) | Expire

  /** A run so far: the time of the last event, what was released when, which packets were let in, in order, and which came
      when. */
  datatype Run = Run(st: State, clock: real, log: seq<Release>, accepted: seq<nat>, offered: seq<Release>)

  /** Time does not go back, and a pending timer fires at its time. */
  predicate Timely(r: Run, e: Event) {
    match e
    case Arrive(at, _) => at >= r.clock && (r.st.timer.Pending? ==> at <= r.st.timer.at)
    case Expire => r.st.timer.Pending? && r.st.queue != []
  }

  function Step(c: Config, r: Run, e: Event): Run
    requires c.rate > 0.0
  {
    if !Timely(r, e) then r
    else
      match e
      case Arrive(at, bytes) =>
        var (st, verdict) := OnRecv(c, r.st, at, bytes);
        Run(st, at, if verdict.Sent? then r.log + [Release(at, bytes)] else r.log,
            if verdict.Dropped? then r.accepted else r.accepted + [bytes], r.offered + [Release(at, bytes)])
      case Expire =>
        Run(OnTimeout(c, r.st, r.st.timer.at), r.st.timer.at, r.log + [Release(r.st.timer.at, r.st.queue[0])], r.accepted,
            r.offered)
  }

  function Exec(c: Config, start: real, events: seq<Event>): Run
    requires c.rate > 0.0
  {
    if events == [] then Run(State(true, 0.0, start, [], Idle), start, [], [], [])
    else Step(c, Exec(c, start, events[..|events| - 1]), events[|events| - 1])
  }

  /** The bits released from time s to time t. */
  function Released(log: seq<Release>, s: real, t: real): real {
    if log == [] then 0.0
    else
      var n := |log| - 1;
      Released(log[..n], s, t) + if s <= log[n].at <= t then Bits(log[n].bytes) else 0.0
  }

  function Sizes(log: seq<Release>): seq<nat> {
    if log == [] then [] else Sizes(log[..|log| - 1]) + [log[|log| - 1].bytes]
  }

  /** No packet is larger than m bits, and neither is the bucket. */
  predicate Within(c: Config, m: real, events: seq<Event>) {
    c.bucket <= m && forall i | 0 <= i < |events| && events[i].Arrive? :: Bits(events[i].bytes) <= m
  }

  /** The bucket or the largest packet, whichever is larger. */
  function Burst(c: Config, events: seq<Event>): (m: real)
    ensures Within(c, m, events)
    ensures m == c.bucket || exists i | 0 <= i < |events| :: events[i].Arrive? && Bits(events[i].bytes) == m
  {
    if events == [] then c.bucket
    else
      var n := |events| - 1;
      var m := Burst(c, events[..n]);
      if events[n].Arrive? && Bits(events[n].bytes) > m then Bits(events[n].bytes) else m
  }

  // ---------- what every state keeps ----------

  /** Tokens never exceed the bucket, nor fall further below nothing than the largest packet exceeds it; the timer is
      pending exactly when packets wait, for the time when the tokens earned would be just enough for the first. */
  ghost predicate Tidy(c: Config, m: real, st: State) {
    && c.rate > 0.0 && 0.0 <= c.bucket <= m && (st.init ==> st.queue == [])
    && (!st.init ==> c.bucket - m <= st.tokens <= c.bucket)
    && (st.timer.Pending? <==> st.queue != [])
    && (forall i | 0 <= i < |st.queue| :: Bits(st.queue[i]) <= m)
    && (st.timer.Pending? ==>
          st.last <= st.timer.at && st.tokens + Earn(c, st.timer.at - st.last) == Bits(st.queue[0]))
    && |st.queue| <= (if c.qlen < 0 then 1 else c.qlen)
  }

  /** What was released since time s, and the tokens left, are covered by a bucketful and the tokens earned since s. */
  ghost predicate Earned(c: Config, log: seq<Release>, last: real, tokens: real) {
    forall s: real :: s <= last ==> Released(log, s, last) + tokens <= c.bucket + Earn(c, last - s)
  }

  ghost predicate Conforms(c: Config, m: real, log: seq<Release>) {
    forall s: real, t: real :: s <= t ==> Released(log, s, t) <= m + Earn(c, t - s)
  }

  predicate Past(log: seq<Release>, now: real) {
    forall i | 0 <= i < |log| :: log[i].at <= now
  }

  predicate Fifo(log: seq<Release>, queue: seq<nat>, accepted: seq<nat>) {
    Sizes(log) + queue == accepted
  }

  ghost predicate Inv(c: Config, m: real, r: Run) {
    && Tidy(c, m, r.st) && r.st.last <= r.clock && (r.st.timer.Pending? ==> r.clock <= r.st.timer.at)
    && Past(r.log, r.st.last)
    && (r.st.init ==> r.log == []) && (!r.st.init ==> Earned(c, r.log, r.st.last, r.st.tokens)) && Conforms(c, m, r.log)
    && Fifo(r.log, r.st.queue, r.accepted)
  }

  lemma EarnAdd(c: Config, a: real, b: real)
    ensures Earn(c, a + b) == Earn(c, a) + Earn(c, b)
  {
  }

  lemma EarnSign(c: Config, d: real)
    requires c.rate > 0.0 && d >= 0.0
    ensures Earn(c, d) >= 0.0
  {
  }

  lemma Delay(c: Config, need: real)
    requires c.rate > 0.0 && need >= 0.0
    ensures need / c.rate >= 0.0 && Earn(c, need / c.rate) == need
  {
  }

  /** The tokens at the time the timer is set for are the size of the packet, if the bucket can hold that many. */
  lemma AtExpiry(c: Config, st: State)
    requires c.rate > 0.0 && st.timer.Pending? && st.queue != []
    requires st.tokens + Earn(c, st.timer.at - st.last) == Bits(st.queue[0])
    ensures Refill(c, st, st.timer.at).tokens == Bits(st.queue[0]) <==> Bits(st.queue[0]) <= c.bucket
  {
    hide Earn, Bits;
  }

  lemma RecvTidy(c: Config, m: real, st: State, now: real, bytes: nat)
    requires Tidy(c, m, st) && (st.init || st.last <= now) && Bits(bytes) <= m
    ensures Tidy(c, m, OnRecv(c, st, now, bytes).0)
  {
    hide Earn, Bits;
    if st.queue == [] {
      var full := if st.init then st.(tokens := c.bucket, last := now, init := false) else st;
      EarnSign(c, now - full.last);
      var up := Refill(c, full, now);
      assert c.bucket - m <= up.tokens <= c.bucket && up.last == now;
      hide Refill;
      if up.tokens < Bits(bytes) && c.qlen != 0 {
        var need := Bits(bytes) - up.tokens;
        Delay(c, need);
        var after := OnRecv(c, st, now, bytes).0;
        assert after.timer.Pending? ==> after.timer.at - after.last == need / c.rate;
      }
    }
  }

  /** What the packet sent at expiry leaves: nothing, or as much less as it exceeds the bucket. */
  lemma TimeoutTidy(c: Config, m: real, st: State)
    requires Tidy(c, m, st) && st.timer.Pending?
    ensures var after, bits := OnTimeout(c, st, st.timer.at), Bits(st.queue[0]);
      Tidy(c, m, after) && after.tokens == (if bits <= c.bucket then 0.0 else c.bucket - bits)
  {
    hide Earn, Bits;
    AtExpiry(c, st);
    if |st.queue| > 1 {
      var after := OnTimeout(c, st, st.timer.at);
      var need := Bits(st.queue[1]) - after.tokens;
      Delay(c, need);
      assert after.timer.at - after.last == need / c.rate;
    }
  }

  // ---------- conformance ----------

  lemma {:induction false} ReleasedNone(log: seq<Release>, s: real, t: real)
    requires forall i | 0 <= i < |log| :: log[i].at < s || t < log[i].at
    ensures Released(log, s, t) == 0.0
  {
    if log != [] { ReleasedNone(log[..|log| - 1], s, t); }
  }

  /** Only the releases up to the last one matter. */
  lemma {:induction false} ReleasedUpTo(log: seq<Release>, s: real, t: real, u: real)
    requires forall i | 0 <= i < |log| :: log[i].at <= t && log[i].at <= u
    ensures Released(log, s, t) == Released(log, s, u)
  {
    if log != [] { ReleasedUpTo(log[..|log| - 1], s, t, u); }
  }

  lemma RefillEarned(c: Config, log: seq<Release>, st: State, now: real)
    requires c.rate > 0.0 && st.last <= now && Earned(c, log, st.last, st.tokens) && Past(log, st.last)
    ensures Earned(c, log, now, Refill(c, st, now).tokens) && Past(log, now)
  {
    hide Earn, Bits;
    var tokens := Refill(c, st, now).tokens;
    forall s: real | s <= now ensures Released(log, s, now) + tokens <= c.bucket + Earn(c, now - s) {
      if s <= st.last {
        ReleasedUpTo(log, s, now, st.last);
        EarnAdd(c, st.last - s, now - st.last);
        assert now - s == (st.last - s) + (now - st.last);
      } else {
        ReleasedNone(log, s, now);
        EarnSign(c, now - s);
      }
    }
  }

  lemma ReleaseEarned(c: Config, log: seq<Release>, now: real, tokens: real, bytes: nat)
    requires Earned(c, log, now, tokens)
    ensures Earned(c, log + [Release(now, bytes)], now, tokens - Bits(bytes))
  {
    hide Earn, Bits;
    var more := log + [Release(now, bytes)];
    assert more[..|log|] == log;
    forall s: real | s <= now ensures Released(more, s, now) + tokens - Bits(bytes) <= c.bucket + Earn(c, now - s) {
      assert Released(log, s, now) + tokens <= c.bucket + Earn(c, now - s);
    }
  }

  lemma ReleaseConforms(c: Config, m: real, log: seq<Release>, now: real, tokens: real, bytes: nat)
    requires c.rate > 0.0 && 0.0 <= c.bucket <= m && Conforms(c, m, log) && tokens >= c.bucket - m && Past(log, now)
    requires Earned(c, log + [Release(now, bytes)], now, tokens)
    ensures Conforms(c, m, log + [Release(now, bytes)])
  {
    hide Earn, Bits;
    var more := log + [Release(now, bytes)];
    assert more[..|log|] == log;
    forall s: real, t: real | s <= t ensures Released(more, s, t) <= m + Earn(c, t - s) {
      if t < now {
        assert Released(more, s, t) == Released(log, s, t);
      } else if s <= now {
        ReleasedUpTo(more, s, t, now);
        assert Released(more, s, now) + tokens <= c.bucket + Earn(c, now - s);
        EarnAdd(c, now - s, t - now);
        EarnSign(c, t - now);
        assert t - s == (now - s) + (t - now);
      } else {
        ReleasedNone(more, s, t);
        EarnSign(c, t - s);
      }
    }
  }

  /** What a release keeps that does not overdraw the bucket further than the largest packet exceeds it. */
  lemma ReleaseKeeps(c: Config, m: real, log: seq<Release>, now: real, tokens: real, bytes: nat)
    requires c.rate > 0.0 && 0.0 <= c.bucket <= m && Conforms(c, m, log) && Past(log, now)
    requires Earned(c, log, now, tokens) && tokens - Bits(bytes) >= c.bucket - m
    ensures var more := log + [Release(now, bytes)];
      Conforms(c, m, more) && Past(more, now) && Earned(c, more, now, tokens - Bits(bytes))
  {
    hide Earned, Conforms, Bits;
    ReleaseEarned(c, log, now, tokens, bytes);
    ReleaseConforms(c, m, log, now, tokens - Bits(bytes), bytes);
  }

  lemma TidyMeans(c: Config, m: real, st: State)
    requires Tidy(c, m, st)
    ensures c.rate > 0.0 && 0.0 <= c.bucket <= m && (st.init ==> st.queue == []) && (st.timer.Pending? <==> st.queue != [])
    ensures st.timer.Pending? ==> st.last <= st.timer.at
  {
  }

  lemma PastMore(log: seq<Release>, t: real, u: real)
    requires Past(log, t) && (t <= u || log == [])
    ensures Past(log, u)
  {
  }

  lemma RefillIs(c: Config, st: State, now: real)
    ensures var up := Refill(c, st, now);
      up.last == now && up.queue == st.queue && up.init == st.init && up.timer == st.timer
  {
  }

  lemma ArriveInv(c: Config, m: real, r: Run, at: real, bytes: nat)
    requires Inv(c, m, r) && Timely(r, Arrive(at, bytes)) && Bits(bytes) <= m
    ensures Inv(c, m, Step(c, r, Arrive(at, bytes)))
  {
    hide Released, Bits, Earn, Tidy, Earned, Conforms, Past, Fifo;
    FifoQueue(r.log, r.st.queue, bytes, r.accepted);
    TidyMeans(c, m, r.st);
    RecvTidy(c, m, r.st, at, bytes);
    if r.st.queue == [] {
      ArriveIdle(c, m, r, at, bytes);
    } else {
      assert !r.st.init && r.st.timer.Pending?;
    }
  }

  lemma ArriveIdle(c: Config, m: real, r: Run, at: real, bytes: nat)
    requires Inv(c, m, r) && Timely(r, Arrive(at, bytes)) && Bits(bytes) <= m && r.st.queue == []
    requires Tidy(c, m, OnRecv(c, r.st, at, bytes).0)
    ensures Inv(c, m, Step(c, r, Arrive(at, bytes)))
  {
    hide Released, Bits, Earn, Earned, Conforms, Refill, Tidy, Past, Fifo;
    FifoQueue(r.log, [], bytes, r.accepted);
    FifoSend(r.log, at, bytes, r.accepted);
    var full := if r.st.init then r.st.(tokens := c.bucket, last := at, init := false) else r.st;
    TidyMeans(c, m, r.st);
    TidyMeans(c, m, OnRecv(c, r.st, at, bytes).0);
    if r.st.init {
      FullEarned(c, at);
    }
    PastMore(r.log, r.st.last, full.last);
    RefillEarned(c, r.log, full, at);
    var up := Refill(c, full, at);
    RefillIs(c, full, at);
    if up.tokens >= Bits(bytes) {
      ReleaseKeeps(c, m, r.log, at, up.tokens, bytes);
    }
    assert OnRecv(c, r.st, at, bytes).0.timer.Pending? ==> OnRecv(c, r.st, at, bytes).0.timer.at >= at;
  }

  lemma FullEarned(c: Config, now: real)
    requires c.rate > 0.0
    ensures Earned(c, [], now, c.bucket)
  {
    hide Earn, Bits;
    forall s: real | s <= now ensures Released([], s, now) + c.bucket <= c.bucket + Earn(c, now - s) {
      EarnSign(c, now - s);
    }
  }

  lemma FifoSend(log: seq<Release>, at: real, bytes: nat, accepted: seq<nat>)
    requires Fifo(log, [], accepted)
    ensures Fifo(log + [Release(at, bytes)], [], accepted + [bytes])
  {
    assert (log + [Release(at, bytes)])[..|log|] == log;
  }

  lemma FifoQueue(log: seq<Release>, queue: seq<nat>, bytes: nat, accepted: seq<nat>)
    requires Fifo(log, queue, accepted)
    ensures Fifo(log, queue + [bytes], accepted + [bytes])
  {
  }

  lemma FifoExpire(log: seq<Release>, at: real, queue: seq<nat>, accepted: seq<nat>)
    requires Fifo(log, queue, accepted) && queue != []
    ensures Fifo(log + [Release(at, queue[0])], queue[1..], accepted)
  {
    assert (log + [Release(at, queue[0])])[..|log|] == log;
    assert queue == [queue[0]] + queue[1..];
  }

  lemma ExpireInv(c: Config, m: real, r: Run)
    requires Inv(c, m, r) && Timely(r, Expire)
    ensures Inv(c, m, Step(c, r, Expire))
  {
    hide Released, Bits, Earn, Earned, Conforms, Past, Fifo;
    TimeoutTidy(c, m, r.st);
    FifoExpire(r.log, r.st.timer.at, r.st.queue, r.accepted);
    AtExpiry(c, r.st);
    var now, bytes := r.st.timer.at, r.st.queue[0];
    RefillEarned(c, r.log, r.st, now);
    ReleaseKeeps(c, m, r.log, now, Refill(c, r.st, now).tokens, bytes);
  }

  lemma {:induction false} Reachable(c: Config, m: real, start: real, events: seq<Event>)
    requires c.rate > 0.0 && c.bucket >= 0.0 && Within(c, m, events)
    ensures Inv(c, m, Exec(c, start, events))
  {
    hide Inv, Step;
    if events == [] {
      StartInv(c, m, start);
    } else {
      var n := |events| - 1;
      Reachable(c, m, start, events[..n]);
      var r := Exec(c, start, events[..n]);
      if Timely(r, events[n]) {
        if events[n].Arrive? { ArriveInv(c, m, r, events[n].at, events[n].bytes); } else { ExpireInv(c, m, r); }
      } else {
        Untimely(c, r, events[n]);
      }
    }
  }

  lemma StartInv(c: Config, m: real, start: real)
    requires c.rate > 0.0 && 0.0 <= c.bucket <= m
    ensures Inv(c, m, Exec(c, start, []))
  {
    EmptyConforms(c, m);
  }

  lemma Untimely(c: Config, r: Run, e: Event)
    requires c.rate > 0.0 && !Timely(r, e)
    ensures Step(c, r, e) == r
  {
  }

  lemma EmptyConforms(c: Config, m: real)
    requires c.rate > 0.0 && 0.0 <= c.bucket <= m
    ensures Conforms(c, m, [])
  {
    hide Earn, Bits;
    forall s: real, t: real | s <= t ensures Released([], s, t) <= m + Earn(c, t - s) {
      EarnSign(c, t - s);
    }
  }

  // ---------- what follows for every run ----------

  /** In no interval is more released than the tokens earned in it and a bucketful, or the largest packet if that is
      larger. */
  lemma Conformance(c: Config, start: real, events: seq<Event>, s: real, t: real)
    requires c.rate > 0.0 && c.bucket >= 0.0 && s <= t
    ensures Released(Exec(c, start, events).log, s, t) <= Burst(c, events) + (t - s) * c.rate
  {
    hide Exec, Released, Burst;
    Reachable(c, Burst(c, events), start, events);
  }

  /** The timer is pending exactly when packets wait.  When it fires, the tokens are exactly those the first one needs
      if and only if the bucket can hold that many; what it leaves is nothing, or negative by the difference. */
  lemma TimerExact(c: Config, start: real, events: seq<Event>)
    requires c.rate > 0.0 && c.bucket >= 0.0
    ensures var st := Exec(c, start, events).st;
      && (st.timer.Pending? <==> st.queue != [])
      && (st.timer.Pending? ==>
            var bits := Bits(st.queue[0]);
            && (Refill(c, st, st.timer.at).tokens == bits <==> bits <= c.bucket)
            && OnTimeout(c, st, st.timer.at).tokens == if bits <= c.bucket then 0.0 else c.bucket - bits)
      && (!st.init ==> c.bucket - Burst(c, events) <= st.tokens <= c.bucket)
  {
    hide Exec, Released, Earn, Bits, Conforms, Earned, Burst;
    var m := Burst(c, events);
    Reachable(c, m, start, events);
    var st := Exec(c, start, events).st;
    if st.timer.Pending? {
      AtExpiry(c, st);
      TimeoutTidy(c, m, st);
    }
  }

  /** What was let in leaves in the order it came, or is waiting. */
  lemma InOrder(c: Config, start: real, events: seq<Event>)
    requires c.rate > 0.0 && c.bucket >= 0.0
    ensures var r := Exec(c, start, events);
      Sizes(r.log) + r.st.queue == r.accepted && |r.st.queue| <= (if c.qlen < 0 then 1 else c.qlen)
  {
    hide Exec, Released, Earn, Bits, Conforms, Earned, Burst;
    Reachable(c, Burst(c, events), start, events);
  }

  /** A packet larger than the bucket is released whole at one instant, and leaves the tokens negative: the bucket
      alone bounds what is released, and the tokens stay above nothing, only while packets fit. */
  lemma OversizeOverdraws(c: Config, start: real, bytes: nat)
    requires c.rate > 0.0 && c.bucket >= 0.0 && c.qlen > 0 && Bits(bytes) > c.bucket
    ensures var r := Exec(c, start, [Arrive(start, bytes), Expire]);
      r.st.tokens == c.bucket - Bits(bytes) < 0.0 && Released(r.log, r.clock, r.clock) == Bits(bytes) > c.bucket
  {
    hide Earn, Bits;
    var events := [Arrive(start, bytes), Expire];
    assert events[..1] == [Arrive(start, bytes)] && events[..1][..0] == [];
    Nothing(c);
    Delay(c, Bits(bytes) - c.bucket);
    var r := Exec(c, start, events[..1]);
    assert r == Step(c, Exec(c, start, []), events[0]);
    assert r.st.tokens == c.bucket && r.st.queue == [bytes];
    assert Exec(c, start, events) == Step(c, r, Expire);
    var log := Exec(c, start, events).log;
    assert log[..0] == [];
  }

  lemma Nothing(c: Config)
    ensures Earn(c, 0.0) == 0.0
  {
  }

  // ---------- what passes ----------

  /** The tokens there would be for a packet coming at this time. */
  function Available(c: Config, st: State, at: real): real {
    var earned := st.tokens + Earn(c, at - st.last);
    if st.init || earned > c.bucket then c.bucket else earned
  }

  /** What becomes of a packet: with nothing waiting and tokens enough it leaves at that instant; it waits if others do and
      there is a place left, or if tokens are missing and packets may wait at all; else it is dropped. */
  lemma Fate(c: Config, r: Run, at: real, bytes: nat)
    requires c.rate > 0.0 && Timely(r, Arrive(at, bytes)) && (r.st.init ==> r.st.queue == [])
    ensures var r', enough := Step(c, r, Arrive(at, bytes)), Available(c, r.st, at) >= Bits(bytes);
      var places := if r.st.queue == [] then c.qlen != 0 else |r.st.queue| < c.qlen;
      && r'.clock == at && r'.offered == r.offered + [Release(at, bytes)]
      && (r'.log == r.log + [Release(at, bytes)] <==> r.st.queue == [] && enough)
      && (r'.log == r.log <==> r.st.queue != [] || !enough)
      && r'.st.queue == (if (r.st.queue == [] && enough) || !places then r.st.queue else r.st.queue + [bytes])
      && r'.accepted == (if (r.st.queue == [] && enough) || places then r.accepted + [bytes] else r.accepted)
  {
    hide Bits;
    if r.st.init { Nothing(c); }
    assert |r.log + [Release(at, bytes)]| == |r.log| + 1;
  }

  /** Since some time, all tokens that could be earned were earned or spent: none were lost to a full bucket. */
  ghost predicate Thrifty(c: Config, log: seq<Release>, last: real, tokens: real) {
    exists s: real :: s <= last && c.bucket + Earn(c, last - s) <= tokens + Released(log, s, last)
  }

  lemma {:induction false} ReleasedSign(log: seq<Release>, s: real, t: real)
    ensures Released(log, s, t) >= 0.0
  {
    if log != [] { ReleasedSign(log[..|log| - 1], s, t); }
  }

  lemma RefillThrifty(c: Config, log: seq<Release>, st: State, now: real)
    requires c.rate > 0.0 && st.last <= now && Thrifty(c, log, st.last, st.tokens) && Past(log, st.last)
    ensures Thrifty(c, log, now, Refill(c, st, now).tokens)
  {
    hide Earn, Bits;
    var s: real :| s <= st.last && c.bucket + Earn(c, st.last - s) <= st.tokens + Released(log, s, st.last);
    var tokens := Refill(c, st, now).tokens;
    if tokens == c.bucket {
      Nothing(c);
      ReleasedSign(log, now, now);
      assert c.bucket + Earn(c, now - now) <= tokens + Released(log, now, now);
    } else {
      ReleasedUpTo(log, s, now, st.last);
      EarnAdd(c, st.last - s, now - st.last);
      assert now - s == (st.last - s) + (now - st.last);
      assert c.bucket + Earn(c, now - s) <= tokens + Released(log, s, now);
    }
  }

  lemma ReleaseThrifty(c: Config, log: seq<Release>, now: real, tokens: real, bytes: nat)
    requires Thrifty(c, log, now, tokens)
    ensures Thrifty(c, log + [Release(now, bytes)], now, tokens - Bits(bytes))
  {
    hide Earn, Bits;
    var more := log + [Release(now, bytes)];
    assert more[..|log|] == log;
    var s: real :| s <= now && c.bucket + Earn(c, now - s) <= tokens + Released(log, s, now);
    assert c.bucket + Earn(c, now - s) <= tokens - Bits(bytes) + Released(more, s, now);
  }

  lemma StartThrifty(c: Config, now: real)
    ensures Thrifty(c, [], now, c.bucket)
  {
    hide Earn, Bits;
    Nothing(c);
    assert c.bucket + Earn(c, now - now) <= c.bucket + Released([], now, now);
  }

  ghost predicate Spent(c: Config, r: Run) {
    !r.st.init ==> Thrifty(c, r.log, r.st.last, r.st.tokens)
  }

  lemma ArriveSpent(c: Config, m: real, r: Run, at: real, bytes: nat)
    requires Inv(c, m, r) && Spent(c, r) && Timely(r, Arrive(at, bytes))
    ensures Spent(c, Step(c, r, Arrive(at, bytes)))
    ensures r.st.queue == [] ==> Thrifty(c, r.log, at, Available(c, r.st, at))
  {
    hide Released, Bits, Earn, Earned, Conforms, Refill, Thrifty, Past, Fifo;
    if r.st.queue == [] {
      var full := if r.st.init then r.st.(tokens := c.bucket, last := at, init := false) else r.st;
      if r.st.init { StartThrifty(c, at); }
      PastMore(r.log, r.st.last, full.last);
      RefillThrifty(c, r.log, full, at);
      RefillIs(c, full, at);
      RefillAvailable(c, r.st, at);
      ReleaseThrifty(c, r.log, at, Refill(c, full, at).tokens, bytes);
    }
  }

  lemma RefillAvailable(c: Config, st: State, at: real)
    ensures var full := if st.init then st.(tokens := c.bucket, last := at, init := false) else st;
      Refill(c, full, at).tokens == Available(c, st, at)
  {
    Nothing(c);
  }

  lemma ExpireSpent(c: Config, m: real, r: Run)
    requires Inv(c, m, r) && Spent(c, r) && Timely(r, Expire)
    ensures Spent(c, Step(c, r, Expire))
  {
    hide Released, Bits, Earn, Earned, Conforms, Refill, Thrifty, Past, Fifo;
    RefillThrifty(c, r.log, r.st, r.st.timer.at);
    RefillDrops(c, r.st, r.st.timer.at);
    RefillIs(c, r.st.(queue := r.st.queue[1..]), r.st.timer.at);
    ReleaseThrifty(c, r.log, r.st.timer.at, Refill(c, r.st, r.st.timer.at).tokens, r.st.queue[0]);
  }

  lemma RefillDrops(c: Config, st: State, at: real)
    requires st.queue != []
    ensures Refill(c, st.(queue := st.queue[1..]), at).tokens == Refill(c, st, at).tokens
  {
  }

  lemma {:induction false} SpentReachable(c: Config, m: real, start: real, events: seq<Event>)
    requires c.rate > 0.0 && c.bucket >= 0.0 && Within(c, m, events)
    ensures Spent(c, Exec(c, start, events))
  {
    hide Inv, Step, Spent;
    if events == [] {
      assert Spent(c, Exec(c, start, [])) by { FreshSpent(c, start); }
    } else {
      var n := |events| - 1;
      SpentReachable(c, m, start, events[..n]);
      Reachable(c, m, start, events[..n]);
      var r := Exec(c, start, events[..n]);
      if Timely(r, events[n]) {
        if events[n].Arrive? { ArriveSpent(c, m, r, events[n].at, events[n].bytes); } else { ExpireSpent(c, m, r); }
      } else {
        Untimely(c, r, events[n]);
      }
    }
  }

  lemma FreshSpent(c: Config, start: real)
    requires c.rate > 0.0
    ensures Spent(c, Exec(c, start, []))
  {
  }

  /** In any run the tokens are a bucketful and what was earned, less what was released, since whenever that is least: no
      token is spent but on a release, and none is lost but to a full bucket. */
  lemma TokensExact(c: Config, start: real, events: seq<Event>)
    requires c.rate > 0.0 && c.bucket >= 0.0 && !Exec(c, start, events).st.init
    ensures var r := Exec(c, start, events);
      && (forall s: real | s <= r.st.last ::
            r.st.tokens <= c.bucket + Earn(c, r.st.last - s) - Released(r.log, s, r.st.last))
      && exists s: real :: s <= r.st.last
           && r.st.tokens == c.bucket + Earn(c, r.st.last - s) - Released(r.log, s, r.st.last)
  {
    hide Exec, Earn, Released, Burst;
    var m := Burst(c, events);
    Reachable(c, m, start, events);
    SpentReachable(c, m, start, events);
    var r := Exec(c, start, events);
    var s: real :| s <= r.st.last && c.bucket + Earn(c, r.st.last - s) <= r.st.tokens + Released(r.log, s, r.st.last);
    assert Released(r.log, s, r.st.last) + r.st.tokens <= c.bucket + Earn(c, r.st.last - s);
  }

  /** In no interval do more bits come than a bucketful and what is earned in it. */
  ghost predicate Conforming(c: Config, offered: seq<Release>) {
    Conforms(c, c.bucket, offered)
  }

  lemma ConformingBefore(c: Config, offered: seq<Release>, p: Release)
    requires Conforming(c, offered + [p])
    ensures Conforming(c, offered)
  {
    hide Earn;
    var more := offered + [p];
    assert more[..|offered|] == offered;
    forall s: real, t: real | s <= t ensures Released(offered, s, t) <= c.bucket + Earn(c, t - s) {
      assert Released(more, s, t) <= c.bucket + Earn(c, t - s);
    }
  }

  lemma EnoughFor(c: Config, log: seq<Release>, at: real, tokens: real, bytes: nat)
    requires Thrifty(c, log, at, tokens) && Conforming(c, log + [Release(at, bytes)])
    ensures tokens >= Bits(bytes)
  {
    hide Earn, Bits;
    var more := log + [Release(at, bytes)];
    assert more[..|log|] == log;
    var s: real :| s <= at && c.bucket + Earn(c, at - s) <= tokens + Released(log, s, at);
    assert Released(more, s, at) <= c.bucket + Earn(c, at - s);
  }

  lemma {:induction false} PassesAll(c: Config, m: real, start: real, events: seq<Event>)
    requires c.rate > 0.0 && c.bucket >= 0.0 && Within(c, m, events) && Conforming(c, Exec(c, start, events).offered)
    ensures var r := Exec(c, start, events); r.log == r.offered && r.st.queue == []
  {
    hide Conforming, Released, Earn, Bits, Within, Available;
    if events != [] {
      var n := |events| - 1;
      var r, e := Exec(c, start, events[..n]), events[n];
      WithinBefore(c, m, events);
      Reachable(c, m, start, events[..n]);
      SpentReachable(c, m, start, events[..n]);
      hide Exec, Spent, Thrifty, Inv;
      StepsOn(c, start, events);
      if Timely(r, e) && e.Arrive? {
        InvStarts(c, m, r);
        hide Step;
        Fate(c, r, e.at, e.bytes);
        ConformingBefore(c, r.offered, Release(e.at, e.bytes));
        PassesAll(c, m, start, events[..n]);
        ArriveSpent(c, m, r, e.at, e.bytes);
        EnoughFor(c, r.log, e.at, Available(c, r.st, e.at), e.bytes);
      } else {
        assert Step(c, r, e).offered == r.offered;
        PassesAll(c, m, start, events[..n]);
      }
    }
  }

  lemma WithinBefore(c: Config, m: real, events: seq<Event>)
    requires events != [] && Within(c, m, events)
    ensures Within(c, m, events[..|events| - 1])
  {
  }

  lemma StepsOn(c: Config, start: real, events: seq<Event>)
    requires c.rate > 0.0 && events != []
    ensures Exec(c, start, events) == Step(c, Exec(c, start, events[..|events| - 1]), events[|events| - 1])
  {
  }

  lemma InvStarts(c: Config, m: real, r: Run)
    requires Inv(c, m, r)
    ensures r.st.init ==> r.st.queue == []
  {
  }

  /** If what comes stays within a bucketful and the rate, in every interval, then all of it is released at the very instant
      it comes: nothing ever waits and nothing is dropped. */
  lemma ConformingPasses(c: Config, start: real, events: seq<Event>)
    requires c.rate > 0.0 && c.bucket >= 0.0
    requires forall s: real, t: real | s <= t ::
      Released(Exec(c, start, events).offered, s, t) <= c.bucket + (t - s) * c.rate
    ensures var r := Exec(c, start, events); r.log == r.offered && r.st.queue == []
  {
    hide Released, Exec, Burst, Within;
    PassesAll(c, Burst(c, events), start, events);
  }

  // ---------- the filter itself ----------

  class Tbf {
    const rate: real
    const bucket: real
    const qlen: int
    var tokens: real
    var lastupdatetime: real
    var q: seq<nat>
    var timer: Timer
    var init: bool

    function Conf(): Config {
      Config(rate, bucket, qlen)
    }

    function Abstract(): State
      reads this
    {
      State(init, tokens, lastupdatetime, q, timer)
    }

    constructor (rate: real, bucket: real, qlen: int, now: real)
      ensures Conf() == Config(rate, bucket, qlen) && Abstract() == State(true, 0.0, now, [], Idle)
    {
      this.rate, this.bucket, this.qlen := rate, bucket, qlen;
      tokens, lastupdatetime, q, timer, init := 0.0, now, [], Idle, true;
    }

    method GetUpdatedTokens(now: real)
      modifies this
      ensures Abstract() == Refill(Conf(), old(Abstract()), now)
    {
      tokens := tokens + (now - lastupdatetime) * rate;
      if tokens > bucket {
        tokens := bucket;
      }
      lastupdatetime := now;
    }

    /** The result says whether the packet went to the target, to the queue, or was dropped. */
    method Recv(now: real, size: nat) returns (verdict: Verdict)
      requires rate > 0.0
      modifies this
      ensures (Abstract(), verdict) == OnRecv(Conf(), old(Abstract()), now, size)
    {
      if init {
        tokens := bucket;
        lastupdatetime := now;
        init := false;
      }
      if |q| != 0 {
        if |q| < qlen {
          q := q + [size];
          return Queued;
        }
        return Dropped;
      }
      GetUpdatedTokens(now);
      var pktsize := Bits(size);
      if tokens >= pktsize {
        tokens := tokens - pktsize;
        return Sent;
      }
      if qlen != 0 {
        q := q + [size];
        timer := Pending(now + (pktsize - tokens) / rate);
        return Queued;
      }
      return Dropped;
    }

    /** Sends the head of the queue; an empty queue would end the program. */
    method Timeout(now: real) returns (sent: nat)
      requires rate > 0.0 && q != []
      modifies this
      ensures Abstract() == OnTimeout(Conf(), old(Abstract()), now) && sent == old(q)[0]
    {
      sent := q[0];
      q := q[1..];
      timer := Idle;
      GetUpdatedTokens(now);
      tokens := tokens - Bits(sent);
      if |q| != 0 {
        timer := Pending(now + (Bits(q[0]) - tokens) / rate);
      }
    }
  }
}
