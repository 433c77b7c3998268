/** The closed form that the iterative solver uses for a RED queue: given the load, the drop probability and the delay
    at which the queue settles. Doubles are reals; the square root is handed in. */
module RedRouter {

  /** The delay of an M/M/1 queue under the load that is left after dropping a share p. */
  ghost predicate Settles(load: real, p: real, delay: real) {
    var left := load * (1.0 - p);
    0.0 <= p < 1.0 && left < 1.0 && delay * (1.0 - left) == left
  }

  /** The RED curve: nothing is dropped up to minTh, then linearly more up to maxP at maxTh, and there anything more. */
  ghost predicate OnCurve(minTh: real, maxTh: real, maxP: real, p: real, delay: real) {
    || (delay <= minTh && p == 0.0)
    || (minTh <= delay <= maxTh && p * (maxTh - minTh) == maxP * (delay - minTh))
    || (delay == maxTh && p >= maxP)
  }

  lemma Cancel(a: real, x: real, y: real)
    requires a != 0.0 && a * x == a * y
    ensures x == y
  {
  }

  lemma Less(a: real, x: real, y: real)
    requires a > 0.0 && x < y
    ensures a * x < a * y
  {
  }

  lemma Divided(x: real, y: real)
    requires y != 0.0
    ensures (x / y) * y == x
  {
  }

  /** Dropping more means less delay. */
  lemma DelayFalls(load: real, p: real, d: real, p': real, d': real)
    requires load > 0.0 && Settles(load, p, d) && Settles(load, p', d') && p < p'
    ensures d' < d
  {
    var x, x' := load * (1.0 - p), load * (1.0 - p');
    Less(load, 1.0 - p', 1.0 - p);
    assert x' < x < 1.0;
    if d' >= d {
      Less(load, 0.0, 1.0 - p');
      Ratio(x, d, x', d');
    }
  }

  lemma Ratio(x: real, d: real, x': real, d': real)
    requires 0.0 < x' < x < 1.0 && d * (1.0 - x) == x && d' * (1.0 - x') == x'
    ensures d' < d
  {
    assert (1.0 + d) * (1.0 - x) == 1.0 && (1.0 + d') * (1.0 - x') == 1.0;
    assert d > 0.0;
    if d' >= d {
      assert (1.0 + d') * (1.0 - x') >= (1.0 + d) * (1.0 - x');
      Less(1.0 + d, 1.0 - x, 1.0 - x');
      assert false;
    }
  }

  /** More delay does not mean less dropping. */
  lemma CurveRises(minTh: real, maxTh: real, maxP: real, p: real, d: real, p': real, d': real)
    requires minTh < maxTh && maxP > 0.0 && d < d' && p >= 0.0 && p' >= 0.0
    requires OnCurve(minTh, maxTh, maxP, p, d) && OnCurve(minTh, maxTh, maxP, p', d')
    ensures p <= p'
  {
    if p != 0.0 {
      assert minTh <= d < maxTh;
      var w := maxTh - minTh;
      assert p * w == maxP * (d - minTh);
      if d' == maxTh && p' >= maxP {
        Less(maxP, d - minTh, w);
        if p >= maxP { NotLess(w, maxP, p); }
      } else {
        Less(maxP, d - minTh, d' - minTh);
        if p > p' { Less(w, p', p); }
      }
    }
  }

  lemma NotLess(a: real, x: real, y: real)
    requires a > 0.0 && x <= y
    ensures a * x <= a * y
  {
  }

  /** There is at most one point where a queue settles on its RED curve. */
  lemma OneEquilibrium(minTh: real, maxTh: real, maxP: real, load: real, p: real, d: real, p': real, d': real)
    requires minTh < maxTh && maxP > 0.0 && load > 0.0
    requires Settles(load, p, d) && Settles(load, p', d')
    requires OnCurve(minTh, maxTh, maxP, p, d) && OnCurve(minTh, maxTh, maxP, p', d')
    ensures p == p' && d == d'
  {
    hide OnCurve;
    if p < p' {
      DelayFalls(load, p, d, p', d');
      CurveRises(minTh, maxTh, maxP, p', d', p, d);
    } else if p' < p {
      DelayFalls(load, p', d', p, d);
      CurveRises(minTh, maxTh, maxP, p, d, p', d');
    } else {
      Cancel(1.0 - load * (1.0 - p), d, d');
    }
  }

  // ---------- the three branches ----------

  /** The load that a delay goes with: x (1 + d) == d. */
  lemma LoadOfDelay(x: real, d: real)
    requires d >= 0.0 && x * (1.0 + d) == d
    ensures 0.0 <= x < 1.0 && d * (1.0 - x) == x && (d > 0.0 ==> x > 0.0)
  {
    if x >= 1.0 { NotLess(1.0 + d, 1.0, x); }
    if x < 0.0 { Less(1.0 + d, x, 0.0); }
  }

  /** lambdaL is the load whose delay is minTh; lambdaH is the load whose delay is maxTh when a share maxP is dropped. */
  ghost predicate LowLoad(minTh: real, lambdaL: real) {
    lambdaL * (1.0 + minTh) == minTh
  }

  ghost predicate HighLoad(maxTh: real, maxP: real, lambdaH: real) {
    maxP < 1.0 ==> lambdaH * (1.0 - maxP) * (1.0 + maxTh) == maxTh
  }

  function LightDelay(load: real): real
    requires load < 1.0
  {
    load / (1.0 - load)
  }

  function HeavyDrop(load: real, lambdaH: real, maxP: real): real
    requires load > 0.0
  {
    (load - lambdaH * (1.0 - maxP)) / load
  }

  lemma LightLoad(minTh: real, lambdaL: real, load: real)
    requires minTh >= 0.0 && LowLoad(minTh, lambdaL) && 0.0 <= load <= lambdaL
    ensures load < 1.0 && Settles(load, 0.0, LightDelay(load)) && 0.0 <= LightDelay(load) <= minTh
  {
    LoadOfDelay(lambdaL, minTh);
    var d := LightDelay(load);
    Divided(load, 1.0 - load);
    if d < 0.0 { Less(1.0 - load, d, 0.0); }
    if d > minTh {
      assert load * (1.0 + d) == d;
      Steeper(load, d, lambdaL, minTh);
    }
  }

  lemma HeavyLoad(maxTh: real, maxP: real, lambdaH: real, load: real)
    requires maxTh > 0.0 && 0.0 < maxP < 1.0 && HighLoad(maxTh, maxP, lambdaH) && load > lambdaH && load > 0.0
    ensures var p := HeavyDrop(load, lambdaH, maxP); Settles(load, p, maxTh) && p >= maxP
  {
    var x := lambdaH * (1.0 - maxP);
    var p := (load - x) / load;
    Divided(load - x, load);
    LoadOfDelay(x, maxTh);
    Less(1.0 - maxP, lambdaH, load);
    DropBounds(load, maxP, x, p);
  }

  lemma DropBounds(load: real, maxP: real, x: real, p: real)
    requires load > 0.0 && 0.0 < x < (1.0 - maxP) * load && p * load == load - x
    ensures maxP <= p < 1.0 && load * (1.0 - p) == x
  {
    Spread(load, p);
    Spread(load, maxP);
    if p < maxP { Less(load, p, maxP); }
    if p >= 1.0 { NotLess(load, 1.0, p); }
  }

  lemma Spread(load: real, p: real)
    ensures (1.0 - p) * load == load - load * p
  {
  }

  ghost predicate Zero(a: real, b: real, c: real, p: real) {
    a * p * p + b * p + c == 0.0
  }

  function Larger(a: real, b: real, root: real): real
    requires a > 0.0
  {
    (-b + root) / (2.0 * a)
  }

  /** The larger root of a quadratic with a > 0 > c. */
  lemma LargerRoot(a: real, b: real, c: real, root: real)
    requires a > 0.0 && c < 0.0 && root >= 0.0 && root * root == b * b - 4.0 * a * c
    ensures var p := Larger(a, b, root); p > 0.0 && Zero(a, b, c, p)
  {
    var p := (-b + root) / (2.0 * a);
    Divided(-b + root, 2.0 * a);
    Less(a, c, 0.0);
    if root <= b { Squares(root, b); }
    if p <= 0.0 { NotLess(2.0 * a, p, 0.0); }
    Complete(a, b, p);
    Cancel(4.0 * a, a * p * p + b * p + c, 0.0);
  }

  lemma Squares(x: real, y: real)
    requires 0.0 <= x <= y
    ensures x * x <= y * y
  {
  }

  lemma Complete(a: real, b: real, p: real)
    ensures (p * (2.0 * a) + b) * (p * (2.0 * a) + b) == 4.0 * a * (a * p * p + b * p) + b * b
  {
  }

  /** Between the two: a root p of the quadratic is where the queue settles, on the slope of the curve. */
  lemma MiddleSettles(m: real, k: real, load: real, a: real, b: real, c: real, p: real)
    requires m >= 0.0 && k > 0.0 && load > 0.0 && p > 0.0 && Zero(a, b, c, p)
    requires a == load * k && b == k * (1.0 - load) + m * load + load && c == m * (1.0 - load) - load
    ensures Settles(load, p, m + k * p) && load * (1.0 - p) * (1.0 + (m + k * p)) == m + k * p && m + k * p > m
  {
    var d, x := m + k * p, load * (1.0 - p);
    Less(k, 0.0, p);
    Rearranged(m, k, load, p, a, b, c);
    LoadOfDelay(x, d);
    if p >= 1.0 { NotLess(load, 1.0 - p, 0.0); }
  }

  /** And it is not past the end of the slope. */
  lemma MiddleBounded(m: real, maxTh: real, maxP: real, lambdaH: real, k: real, load: real, p: real)
    requires 0.0 <= m < maxTh && maxP > 0.0 && k * maxP == maxTh - m && k > 0.0 && load > 0.0 && 0.0 < p < 1.0
    requires HighLoad(maxTh, maxP, lambdaH) && (maxP < 1.0 ==> load <= lambdaH)
    requires load * (1.0 - p) * (1.0 + (m + k * p)) == m + k * p
    ensures p <= maxP && m + k * p <= maxTh
  {
    hide HighLoad;
    Along(m, maxTh, maxP, k, p);
    if p > maxP {
      PastSlope(maxTh, maxP, lambdaH, load, p, m + k * p);
      assert false;
    }
  }

  lemma Along(m: real, maxTh: real, maxP: real, k: real, p: real)
    requires k * maxP == maxTh - m && k > 0.0
    ensures if p > maxP then m + k * p > maxTh else m + k * p <= maxTh
  {
    if p > maxP { Less(k, maxP, p); } else { NotLess(k, p, maxP); }
  }

  lemma PastSlope(maxTh: real, maxP: real, lambdaH: real, load: real, p: real, d: real)
    requires maxTh > 0.0 && 0.0 < maxP < 1.0 && HighLoad(maxTh, maxP, lambdaH) && 0.0 < load <= lambdaH
    requires d > maxTh && load * (1.0 - p) * (1.0 + d) == d
    ensures p <= maxP
  {
    var x, y := load * (1.0 - p), load * (1.0 - maxP);
    Lighter(load, lambdaH, 1.0 - maxP, 1.0 + maxTh);
    Steeper(x, d, y, maxTh);
    if 1.0 - p <= 1.0 - maxP { NotLess(load, 1.0 - p, 1.0 - maxP); }
  }

  lemma Lighter(x: real, y: real, u: real, v: real)
    requires x <= y && u > 0.0 && v > 0.0
    ensures (x * u) * v <= y * u * v
  {
    NotLess(u, x, y);
    NotLess(v, x * u, y * u);
  }

  lemma Swapped(p: real, k: real, maxP: real)
    ensures p * (k * maxP) == maxP * (k * p)
  {
  }

  lemma Slope(k: real, maxP: real, w: real)
    requires maxP > 0.0 && w > 0.0 && k * maxP == w
    ensures k > 0.0
  {
    if k <= 0.0 { NotLess(maxP, k, 0.0); }
  }

  lemma Rearranged(m: real, k: real, load: real, p: real, a: real, b: real, c: real)
    requires a == load * k && b == k * (1.0 - load) + m * load + load && c == m * (1.0 - load) - load
    requires Zero(a, b, c, p)
    ensures load * (1.0 - p) * (1.0 + (m + k * p)) == m + k * p
  {
    assert (m + k * p) - load * (1.0 - p) * (1.0 + (m + k * p)) == a * p * p + b * p + c;
  }

  /** More delay needs more load. */
  lemma Steeper(x: real, d: real, y: real, e: real)
    requires 0.0 <= e < d && x * (1.0 + d) == d && y * (1.0 + e) <= e
    ensures x > y
  {
    if x <= y {
      NotLess(1.0 + d, x, y);
      assert y * (1.0 + d) == y * (1.0 + e) + y * (d - e);
      LoadOfDelay(x, d);
      if y >= 1.0 { NotLess(1.0 + e, 1.0, y); }
      Less(d - e, y, 1.0);
    }
  }

  // ---------- the router ----------

  class RedRouter {
    const minTh: real
    const maxTh: real
    const maxP: real
    var lambdaL: real
    var lambdaH: real

    ghost predicate Valid()
      reads this
    {
      && 0.0 <= minTh < maxTh && maxP > 0.0
      && LowLoad(minTh, lambdaL) && HighLoad(maxTh, maxP, lambdaH)
    }

    constructor (mTh: int, bigMTh: int, maxP: real)
      requires 0 <= mTh < bigMTh && maxP > 0.0
      ensures Valid() && minTh == mTh as real && maxTh == bigMTh as real && this.maxP == maxP
    {
      minTh, maxTh, this.maxP := mTh as real, bigMTh as real, maxP;
      new;
      Populate();
    }

    /** The loads at which dropping starts and at which it reaches maxP. */
    method Populate()
      requires 0.0 <= minTh < maxTh && maxP > 0.0
      modifies this
      ensures Valid()
    {
      lambdaL := minTh / (1.0 + minTh);
      Divided(minTh, 1.0 + minTh);
      if maxP < 1.0 {
        lambdaH := maxTh / (1.0 + maxTh) / (1.0 - maxP);
        Divided(maxTh, 1.0 + maxTh);
        Divided(maxTh / (1.0 + maxTh), 1.0 - maxP);
      }
    }

    /** The drop probability and the delay under load `load`: the one point where the queue settles on its curve.
        `root` is the square root of the discriminant. */
    method ComputeProbability(load: real, root: real) returns (p: real, delay: real)
      requires Valid() && load >= 0.0
      requires load > lambdaL && (maxP < 1.0 ==> load <= lambdaH) ==> IsRoot(minTh, maxTh, maxP, load, root)
      ensures Settles(load, p, delay) && OnCurve(minTh, maxTh, maxP, p, delay) && 0.0 <= delay <= maxTh
      ensures load > lambdaL ==> p > 0.0
      ensures load > lambdaL && (maxP < 1.0 ==> load <= lambdaH) ==> p <= maxP && minTh < delay
    {
      hide Settles, OnCurve, IsRoot, LowLoad, HighLoad, LightDelay, HeavyDrop, A, B, C;
      LowIsNonneg(minTh, lambdaL);
      if load <= lambdaL {
        LightLoad(minTh, lambdaL, load);
        delay := LightDelay(load);
        p := 0.0;
        OnTheCurve(minTh, maxTh, maxP, p, delay);
        return;
      }
      if maxP < 1.0 && load > lambdaH {
        delay := maxTh;
        p := HeavyDrop(load, lambdaH, maxP);
        HeavyLoad(maxTh, maxP, lambdaH, load);
        OnTheCurve(minTh, maxTh, maxP, p, delay);
        return;
      }
      Roots(minTh, maxTh, maxP, lambdaL, lambdaH, load, root);
      hide Larger, Mm1, Thin;
      var a := A(minTh, maxTh, maxP, load);
      var b := B(minTh, maxTh, maxP, load);
      p := Larger(a, b, root);
      delay := Mm1(load, p);
    }
  }

  /** The coefficients of the quadratic that the drop probability solves. */
  function A(minTh: real, maxTh: real, maxP: real, load: real): real
    requires maxP > 0.0
  {
    load * (maxTh - minTh) / maxP
  }

  function B(minTh: real, maxTh: real, maxP: real, load: real): real
    requires maxP > 0.0
  {
    (maxTh - minTh) * (1.0 - load) / maxP + minTh * load + load
  }

  function C(minTh: real, load: real): real {
    minTh * (1.0 - load) - load
  }

  predicate Thin(load: real, p: real) {
    load * (1.0 - p) < 1.0
  }

  /** The delay of an M/M/1 queue. */
  function Mm1(load: real, p: real): real
    requires Thin(load, p)
  {
    (load * (1.0 - p)) / (1.0 - (load * (1.0 - p)))
  }

  /** `root` is the square root of the discriminant of a p^2 + b p + c. */
  ghost predicate IsRoot(minTh: real, maxTh: real, maxP: real, load: real, root: real)
    requires maxP > 0.0
  {
    var a, b, c := A(minTh, maxTh, maxP, load), B(minTh, maxTh, maxP, load), C(minTh, load);
    root >= 0.0 && root * root == b * b - 4.0 * a * c
  }

  lemma LowIsNonneg(minTh: real, lambdaL: real)
    requires minTh >= 0.0 && LowLoad(minTh, lambdaL)
    ensures 0.0 <= lambdaL < 1.0
  {
    LoadOfDelay(lambdaL, minTh);
  }

  lemma Roots(minTh: real, maxTh: real, maxP: real, lambdaL: real, lambdaH: real, load: real, root: real)
    requires 0.0 <= minTh < maxTh && maxP > 0.0 && LowLoad(minTh, lambdaL) && HighLoad(maxTh, maxP, lambdaH)
    requires load > lambdaL >= 0.0 && (maxP < 1.0 ==> load <= lambdaH) && IsRoot(minTh, maxTh, maxP, load, root)
    ensures A(minTh, maxTh, maxP, load) > 0.0
    ensures var p := Larger(A(minTh, maxTh, maxP, load), B(minTh, maxTh, maxP, load), root);
      && Thin(load, p) && Settles(load, p, Mm1(load, p)) && 0.0 < p <= maxP
      && minTh < Mm1(load, p) <= maxTh && OnCurve(minTh, maxTh, maxP, p, Mm1(load, p))
  {
    hide A, B, C, OnCurve, Settles, LowLoad, HighLoad, Mm1, Zero, Thin, Larger;
    var a, b, c := A(minTh, maxTh, maxP, load), B(minTh, maxTh, maxP, load), C(minTh, load);
    Positive(minTh, maxTh, maxP, load, lambdaL);
    LargerRoot(a, b, c, root);
    Middle(minTh, maxTh, maxP, lambdaH, load, Larger(a, b, root));
  }

  lemma OnTheCurve(minTh: real, maxTh: real, maxP: real, p: real, delay: real)
    requires (delay <= minTh && p == 0.0) || (delay == maxTh && p >= maxP)
    ensures OnCurve(minTh, maxTh, maxP, p, delay)
  {
  }

  lemma Positive(minTh: real, maxTh: real, maxP: real, load: real, lambdaL: real)
    requires 0.0 <= minTh < maxTh && maxP > 0.0 && load > lambdaL >= 0.0 && LowLoad(minTh, lambdaL)
    ensures A(minTh, maxTh, maxP, load) > 0.0 && C(minTh, load) < 0.0
  {
    Less(1.0 + minTh, lambdaL, load);
    var w := maxTh - minTh;
    Less(w, 0.0, load);
    Divided(load * w, maxP);
    if load * w / maxP <= 0.0 { NotLess(maxP, load * w / maxP, 0.0); }
  }

  lemma Middle(m: real, maxTh: real, maxP: real, lambdaH: real, load: real, p: real)
    requires 0.0 <= m < maxTh && maxP > 0.0 && load > 0.0 && p > 0.0
    requires Zero(A(m, maxTh, maxP, load), B(m, maxTh, maxP, load), C(m, load), p)
    requires HighLoad(maxTh, maxP, lambdaH) && (maxP < 1.0 ==> load <= lambdaH)
    ensures Thin(load, p) && Settles(load, p, Mm1(load, p)) && p <= maxP
    ensures m < Mm1(load, p) <= maxTh && OnCurve(m, maxTh, maxP, p, Mm1(load, p))
  {
    var w := maxTh - m;
    var k := w / maxP;
    Divided(w, maxP);
    Slope(k, maxP, w);
    Coefficients(m, maxTh, maxP, load, k);
    hide A, B, C, HighLoad, Mm1, Zero, OnCurve;
    MiddleSettles(m, k, load, A(m, maxTh, maxP, load), B(m, maxTh, maxP, load), C(m, load), p);
    MiddleBounded(m, maxTh, maxP, lambdaH, k, load, p);
    Settled(load, p, m + k * p);
    OnSlope(m, maxTh, maxP, k, p);
  }

  lemma Coefficients(m: real, maxTh: real, maxP: real, load: real, k: real)
    requires maxP > 0.0 && k == (maxTh - m) / maxP
    ensures A(m, maxTh, maxP, load) == load * k
    ensures B(m, maxTh, maxP, load) == k * (1.0 - load) + m * load + load
    ensures C(m, load) == m * (1.0 - load) - load
  {
    var w := maxTh - m;
    Shifted(load, w, maxP);
    Shifted(1.0 - load, w, maxP);
    assert w * (1.0 - load) == (1.0 - load) * w;
  }

  lemma OnSlope(m: real, maxTh: real, maxP: real, k: real, p: real)
    requires k * maxP == maxTh - m && m < m + k * p <= maxTh
    ensures OnCurve(m, maxTh, maxP, p, m + k * p)
  {
    Swapped(p, k, maxP);
  }

  lemma Settled(load: real, p: real, d: real)
    requires Settles(load, p, d)
    ensures Thin(load, p) && Mm1(load, p) == d
  {
    Quotient(d, load * (1.0 - p));
  }

  lemma Quotient(d: real, x: real)
    requires x < 1.0 && d * (1.0 - x) == x
    ensures x / (1.0 - x) == d
  {
    Divided(x, 1.0 - x);
    Cancel(1.0 - x, x / (1.0 - x), d);
  }

  lemma Shifted(x: real, w: real, y: real)
    requires y != 0.0
    ensures x * w / y == x * (w / y)
  {
    Divided(x * w, y);
    Divided(w, y);
    Cancel(y, x * w / y, x * (w / y));
  }
}
