/** The classifier's table of slots, and the multipath forwarder that takes turns over the occupied ones. */
module RoundRobin {

  datatype Slot = Null | Target(id: nat)

  /** The first occupied slot from position s on, in a table whose last slot is occupied. */
  function FirstFrom(t: seq<Slot>, s: nat): (i: nat)
    requires s < |t| && t[|t| - 1] != Null
    ensures s <= i < |t| && t[i] != Null && forall k | s <= k < i :: t[k] == Null
    decreases |t| - s
  {
    if t[s] != Null then s else FirstFrom(t, s + 1)
  }

  /** The slots returned by n calls in a row, the first looking from position s on. */
  function Turns(t: seq<Slot>, s: nat, n: nat): (r: seq<nat>)
    requires s < |t| && t[|t| - 1] != Null
    ensures |r| == n
    decreases n
  {
    if n == 0 then []
    else var i := FirstFrom(t, s); [i] + Turns(t, (i + 1) % |t|, n - 1)
  }

  /** The occupied slots from lo up to hi, in order. */
  function Occupied(t: seq<Slot>, lo: nat, hi: nat): seq<nat>
    requires lo <= hi <= |t|
    decreases hi - lo
  {
    if lo == hi then []
    else if t[lo] != Null then [lo] + Occupied(t, lo + 1, hi) else Occupied(t, lo + 1, hi)
  }

  lemma {:induction false} OccupiedHas(t: seq<Slot>, lo: nat, hi: nat)
    requires lo <= hi <= |t|
    ensures forall i :: i in Occupied(t, lo, hi) <==> lo <= i < hi && t[i] != Null
    decreases hi - lo
  {
    if lo < hi { OccupiedHas(t, lo + 1, hi); }
  }

  predicate Ascends(r: seq<nat>) {
    forall i, j | 0 <= i < j < |r| :: r[i] < r[j]
  }

  lemma {:induction false} OccupiedAscends(t: seq<Slot>, lo: nat, hi: nat)
    requires lo <= hi <= |t|
    ensures Ascends(Occupied(t, lo, hi))
    decreases hi - lo
  {
    if lo < hi {
      OccupiedAscends(t, lo + 1, hi);
      OccupiedHas(t, lo + 1, hi);
      var r := Occupied(t, lo + 1, hi);
      assert forall i | 0 <= i < |r| :: r[i] in r;
    }
  }

  lemma {:induction false} SkipNull(t: seq<Slot>, s: nat)
    requires s < |t| && t[|t| - 1] != Null
    ensures var i := FirstFrom(t, s); Occupied(t, s, |t|) == [i] + Occupied(t, i + 1, |t|)
    decreases |t| - s
  {
    if t[s] == Null { SkipNull(t, s + 1); }
  }

  lemma {:induction false} OccupiedSplit(t: seq<Slot>, lo: nat, mid: nat, hi: nat)
    requires lo <= mid <= hi <= |t|
    ensures Occupied(t, lo, hi) == Occupied(t, lo, mid) + Occupied(t, mid, hi)
    decreases mid - lo
  {
    if lo < mid {
      OccupiedSplit(t, lo + 1, mid, hi);
    }
  }

  lemma Round(i: nat, m: nat)
    requires i < m
    ensures (i + 1) % m == if i + 1 < m then i + 1 else 0
  {
  }

  lemma NoTurns(t: seq<Slot>, s: nat)
    requires s < |t| && t[|t| - 1] != Null
    ensures Turns(t, s, 0) == []
  {
  }

  lemma TurnsStep(t: seq<Slot>, s: nat, n: nat)
    requires s < |t| && t[|t| - 1] != Null && n > 0
    ensures
      var i := FirstFrom(t, s);
      Turns(t, s, n) == [i] + Turns(t, if i + 1 < |t| then i + 1 else 0, n - 1)
  {
    Round(FirstFrom(t, s), |t|);
  }

  /** While the end of the table is not reached the calls return the occupied slots in order. */
  lemma {:induction false} TurnsUp(t: seq<Slot>, s: nat, n: nat)
    requires s < |t| && t[|t| - 1] != Null && n <= |Occupied(t, s, |t|)|
    ensures Turns(t, s, n) == Occupied(t, s, |t|)[..n]
    decreases n
  {
    hide Occupied, Turns;
    if n == 0 {
      NoTurns(t, s);
    } else {
      var i := FirstFrom(t, s);
      SkipNull(t, s);
      TurnsStep(t, s, n);
      var rest := Occupied(t, i + 1, |t|);
      assert ([i] + rest)[..n] == [i] + rest[..n - 1];
      if i + 1 < |t| {
        TurnsUp(t, i + 1, n - 1);
      } else {
        LastIsEmpty(t);
        NoTurns(t, 0);
      }
    }
  }

  lemma LastIsEmpty(t: seq<Slot>)
    ensures Occupied(t, |t|, |t|) == []
  {
  }

  /** At the end of the table they start over. */
  lemma {:induction false} TurnsOver(t: seq<Slot>, s: nat, n: nat)
    requires s < |t| && t[|t| - 1] != Null
    ensures Turns(t, s, |Occupied(t, s, |t|)| + n) == Occupied(t, s, |t|) + Turns(t, 0, n)
    decreases |t| - s
  {
    hide Occupied, Turns;
    var i := FirstFrom(t, s);
    SkipNull(t, s);
    var rest := Occupied(t, i + 1, |t|);
    TurnsStep(t, s, 1 + |rest| + n);
    if i + 1 < |t| {
      TurnsOver(t, i + 1, n);
      Regroup([i], rest, Turns(t, 0, n));
    } else {
      LastIsEmpty(t);
    }
  }

  lemma Regroup(a: seq<nat>, b: seq<nat>, c: seq<nat>)
    ensures a + (b + c) == (a + b) + c
  {
  }

  /** With k slots occupied, any k calls in a row return each of them exactly once. */
  lemma EachOnce(t: seq<Slot>, s: nat)
    requires s < |t| && t[|t| - 1] != Null
    ensures
      var k := |Occupied(t, 0, |t|)|;
      var r := Turns(t, s, k);
      && (forall i :: i in r <==> 0 <= i < |t| && t[i] != Null)
      && (forall a, b | 0 <= a < b < k :: r[a] != r[b])
  {
    hide Occupied, Turns;
    var high, low := Occupied(t, s, |t|), Occupied(t, 0, s);
    OccupiedSplit(t, 0, s, |t|);
    FullTurn(t, s);
    OccupiedHas(t, s, |t|);
    OccupiedHas(t, 0, s);
    OccupiedAscends(t, s, |t|);
    OccupiedAscends(t, 0, s);
    NoTwice(high, low);
  }

  lemma FullTurn(t: seq<Slot>, s: nat)
    requires s < |t| && t[|t| - 1] != Null
    ensures
      var high, low := Occupied(t, s, |t|), Occupied(t, 0, s);
      Turns(t, s, |low| + |high|) == high + low
  {
    hide Occupied, Turns;
    var high, low := Occupied(t, s, |t|), Occupied(t, 0, s);
    OccupiedSplit(t, 0, s, |t|);
    TurnsOver(t, s, |low|);
    TurnsUp(t, 0, |low|);
    assert (low + high)[..|low|] == low;
  }

  lemma NoTwice(high: seq<nat>, low: seq<nat>)
    requires Ascends(high) && Ascends(low) && forall i, j | i in low && j in high :: i < j
    ensures forall a, b | 0 <= a < b < |high + low| :: (high + low)[a] != (high + low)[b]
  {
    var r := high + low;
    forall a, b | 0 <= a < b < |r| ensures r[a] != r[b] {
      if a < |high| <= b {
        assert r[a] in high && r[b] in low;
      }
    }
  }

  // ---------- the table ----------

  /** What slot i of a table of any size holds; slots beyond it hold nothing. */
  function Get(t: seq<Slot>, i: nat): Slot {
    if i < |t| then t[i] else Null
  }

  /** The position of the last occupied slot, or -1. */
  function LastOccupied(t: seq<Slot>): (m: int)
    ensures -1 <= m < |t| && (m >= 0 ==> t[m] != Null) && forall i | m < i < |t| :: t[i] == Null
  {
    if t == [] then -1 else if t[|t| - 1] != Null then |t| - 1 else LastOccupied(t[..|t| - 1])
  }

  lemma LastIs(t: seq<Slot>, m: int)
    requires -1 <= m < |t| && (m >= 0 ==> t[m] != Null) && forall i | m < i < |t| :: t[i] == Null
    ensures LastOccupied(t) == m
  {
  }

  class MultiPathForwarder {
    var slot: array?<Slot>
    var nslot: nat
    var maxslot: int
    const nsize: nat
    var ns: nat

    ghost predicate Shape()
      reads `slot, `nslot
    {
      if slot == null then nslot == 0 else slot.Length == nslot > 0
    }

    ghost function Table(): (t: seq<Slot>)
      reads `slot, slot
      ensures |t| == if slot == null then 0 else slot.Length
    {
      if slot == null then [] else slot[..]
    }

    /** `maxslot` is the last occupied slot. */
    ghost predicate Valid()
      reads `slot, `nslot, `maxslot, slot
    {
      Shape() && maxslot == LastOccupied(Table())
    }

    constructor (nsize: nat)
      ensures Valid() && Table() == [] && ns == 0 && this.nsize == nsize
    {
      slot, nslot, maxslot, ns, this.nsize := null, 0, -1, 0, nsize;
    }

    /** Makes room for `want`, doubling the size; what was there stays. */
    method Alloc(want: nat)
      requires Shape() && want >= nslot
      modifies `slot, `nslot
      ensures Shape() && slot != null && fresh(slot) && want < nslot
      ensures forall i: nat :: Get(Table(), i) == Get(old(Table()), i)
    {
      var was, n := slot, nslot;
      if was == null {
        if nsize != 0 {
          nslot := nsize;
        } else {
          nslot := 32;
        }
      }
      while nslot <= want
        invariant nslot > 0 && nslot >= n && slot == old(slot)
        decreases want - nslot
      {
        nslot := nslot * 2;
      }
      var larger := new Slot[nslot](_ => Null);
      slot := larger;
      var i := 0;
      while i < n
        invariant 0 <= i <= n && slot == larger && nslot == larger.Length
        invariant forall k | 0 <= k < i :: larger[k] == was[k]
        invariant forall k | i <= k < nslot :: larger[k] == Null
      {
        larger[i] := was[i];
        i := i + 1;
      }
    }

    /** Puts p into a slot. `maxslot` stays right exactly if p is a target or the slot is not the last occupied one
        or one beyond. */
    method Install(at: nat, p: Slot)
      requires Shape() && -1 <= maxslot < nslot
      modifies this, slot
      ensures Shape() && ns == old(ns)
      ensures forall i: nat :: Get(Table(), i) == if i == at then p else Get(old(Table()), i)
      ensures maxslot == (if at >= old(maxslot) then at else old(maxslot)) && maxslot < nslot
      ensures old(Valid()) ==> (Valid() <==> p != Null || at < old(maxslot))
    {
      ghost var t := Table();
      if at >= nslot {
        Alloc(at);
      }
      slot[at] := p;
      if at >= maxslot {
        maxslot := at;
      }
      assert forall i: nat :: Get(Table(), i) == if i == at then p else Get(t, i);
      if old(Valid()) {
        InstallLast(t, Table(), at, p);
      }
    }

    /** Empties a slot, and looks for the last occupied one if it was that. */
    method Clear(at: nat)
      requires Valid() && at < nslot
      modifies this, slot
      ensures Valid() && ns == old(ns) && slot == old(slot)
      ensures Table() == old(Table())[at := Null]
    {
      slot[at] := Null;
      ghost var t := Table();
      if at == maxslot {
        maxslot := maxslot - 1;
        while maxslot >= 0 && slot[maxslot] == Null
          invariant -1 <= maxslot < nslot && slot == old(slot) && nslot == old(nslot) && Table() == t && ns == old(ns)
          invariant forall i | maxslot < i < |t| :: t[i] == Null
        {
          maxslot := maxslot - 1;
        }
      }
      LastIs(t, maxslot);
    }

    /** Puts a target behind the last occupied slot. */
    method InstallNext(node: Slot) returns (at: nat)
      requires Valid() && node != Null
      modifies this, slot
      ensures Valid() && ns == old(ns) && at == old(maxslot) + 1 == maxslot
      ensures forall i: nat :: Get(Table(), i) == if i == at then node else Get(old(Table()), i)
    {
      at := maxslot + 1;
      Install(at, node);
    }

    /** The part of the table up to the last occupied slot, and where the next call starts looking. A position left
        beyond the end by a cleared slot is skipped. */
    ghost function Used(): (t: seq<Slot>)
      requires Valid() && maxslot >= 0
      reads `slot, `nslot, `maxslot, slot
      ensures |t| == maxslot + 1 && t[maxslot] != Null
    {
      Table()[..maxslot + 1]
    }

    ghost function Position(): (s: nat)
      requires maxslot >= 0
      reads `ns, `maxslot
      ensures s <= maxslot
    {
      if ns <= maxslot then ns else (ns + 1) % (maxslot + 1)
    }

    /** The next occupied slot in turn. With no slot occupied the source divides by zero. */
    method Classify() returns (cl: nat)
      requires Valid() && maxslot >= 0 && ns < nslot
      modifies `ns
      ensures cl == FirstFrom(Used(), old(Position()))
      ensures cl <= maxslot < nslot && ns == if cl < maxslot then cl + 1 else 0
    {
      hide FirstFrom, LastOccupied;
      ghost var t, s, m := Used(), Position(), maxslot;
      var fail := ns;
      cl := ns;
      ns := (ns + 1) % (maxslot + 1);
      while slot[cl] == Null && ns != fail
        invariant cl < nslot && ns <= m && (fail <= m ==> fail == s)
        invariant if cl > m then cl == fail && ns == s
          else s <= cl && (forall k | s <= k < cl :: t[k] == Null) && ns == (cl + 1) % (m + 1)
        decreases if cl > m then m + 1 else m - cl
      {
        if cl <= m { Round(cl, m + 1); }
        cl := ns;
        ns := (ns + 1) % (maxslot + 1);
      }
      Round(cl, m + 1);
      FirstIs(t, s, cl);
    }

    /** As many calls in a row as there are occupied slots return each of them exactly once. */
    method ClassifyAll(calls: nat) returns (r: seq<nat>)
      requires Valid() && maxslot >= 0 && ns < nslot
      modifies `ns
      ensures r == Turns(Used(), old(Position()), calls)
      ensures calls == |Occupied(Used(), 0, |Used()|)| ==>
        && (forall i :: i in r <==> 0 <= i < |Used()| && Used()[i] != Null)
        && (forall a, b | 0 <= a < b < |r| :: r[a] != r[b])
    {
      hide Turns, Occupied, FirstFrom, Valid, Used;
      ghost var t, s := Used(), Position();
      r := [];
      while |r| < calls
        invariant Valid() && Used() == t && |r| <= calls && ns < nslot && maxslot == old(maxslot)
        invariant Turns(t, s, calls) == r + Turns(t, Position(), calls - |r|)
      {
        ghost var was, here := r, Position();
        var cl := Classify();
        TurnsMore(t, s, was, here, calls);
        r := r + [cl];
      }
      EachOnce(t, s);
      NoTurns(t, Position());
    }
  }

  lemma TurnsMore(t: seq<Slot>, s: nat, r: seq<nat>, here: nat, calls: nat)
    requires s < |t| && here < |t| && t[|t| - 1] != Null && |r| < calls
    requires Turns(t, s, calls) == r + Turns(t, here, calls - |r|)
    ensures
      var cl := FirstFrom(t, here);
      Turns(t, s, calls) == (r + [cl]) + Turns(t, if cl + 1 < |t| then cl + 1 else 0, calls - |r| - 1)
  {
    hide Turns, FirstFrom;
    TurnsStep(t, here, calls - |r|);
    var cl := FirstFrom(t, here);
    Regroup(r, [cl], Turns(t, if cl + 1 < |t| then cl + 1 else 0, calls - |r| - 1));
  }

  lemma FirstIs(t: seq<Slot>, s: nat, i: nat)
    requires s <= i < |t| && t[|t| - 1] != Null && t[i] != Null && forall k | s <= k < i :: t[k] == Null
    ensures FirstFrom(t, s) == i
  {
  }

  lemma InstallLast(t: seq<Slot>, t': seq<Slot>, at: nat, p: Slot)
    requires at < |t'| && |t| <= |t'| && forall i: nat :: Get(t', i) == if i == at then p else Get(t, i)
    ensures
      var m := LastOccupied(t);
      LastOccupied(t') == (if at >= m then at else m) <==> p != Null || at < m
  {
    var m := LastOccupied(t);
    forall i | 0 <= i < |t'| ensures t'[i] == if i == at then p else if i < |t| then t[i] else Null {
      assert t'[i] == Get(t', i);
    }
    if p != Null || at < m {
      LastIs(t', if at >= m then at else m);
    }
  }
}
