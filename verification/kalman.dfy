/** A scalar Kalman filter (transition, observation and control models all
    equal to 1) and the 1-D robot trajectory generator that feeds it.
    All arithmetic is exact rational arithmetic over `real`. */
module Kalman {

  // ---------------------------------------------------------------------
  // Small helpers on reals and sequences of reals
  // ---------------------------------------------------------------------

  function Min(a: real, b: real): real { if a <= b then a else b }
  function Max(a: real, b: real): real { if a <= b then b else a }

  /** The sum of a sequence, peeled from its last element, so that
      Sum(s[..n+1]) unfolds to Sum(s[..n]) + s[n]. */
  function Sum(s: seq<real>): real
    decreases |s|
  {
    if s == [] then 0.0 else Sum(s[..|s| - 1]) + s[|s| - 1]
  }

  lemma SumPrefixStep(s: seq<real>, n: nat)
    requires n < |s|
    ensures Sum(s[..n + 1]) == Sum(s[..n]) + s[n]
  {
    assert s[..n + 1][..n] == s[..n];
  }

  /** Summing a sequence of zeros gives zero. */
  lemma {:induction false} SumOfZeros(s: seq<real>)
    requires forall i :: 0 <= i < |s| ==> s[i] == 0.0
    ensures Sum(s) == 0.0
  {
    if s != [] {
      SumOfZeros(s[..|s| - 1]);
    }
  }

  /** A sum of unit steps (each -1 or +1) stays within [-|s|, |s|]. */
  lemma {:induction false} SumOfUnitSteps(s: seq<real>)
    requires forall i :: 0 <= i < |s| ==> s[i] == -1.0 || s[i] == 1.0
    ensures -(|s| as real) <= Sum(s) <= |s| as real
  {
    if s != [] {
      SumOfUnitSteps(s[..|s| - 1]);
    }
  }

  // ---------------------------------------------------------------------
  // Trajectory generator
  // ---------------------------------------------------------------------

  /** True position after the first n steps of the random walk started at 0:
      every step adds its control u[i] and its process-noise sample w[i]. */
  function PositionAfter(u: seq<real>, w: seq<real>, n: nat): real
    requires n <= |u| && n <= |w|
  {
    Sum(u[..n]) + Sum(w[..n])
  }

  /** The walk's recurrence: one more step adds u[n] + w[n]. */
  lemma PositionStep(u: seq<real>, w: seq<real>, n: nat)
    requires n < |u| && n < |w|
    ensures PositionAfter(u, w, n + 1) == PositionAfter(u, w, n) + u[n] + w[n]
  {
    SumPrefixStep(u, n);
    SumPrefixStep(w, n);
  }

  /** Without process noise the true position is the plain prefix sum of the controls. */
  lemma NoiselessPosition(u: seq<real>, w: seq<real>, n: nat)
    requires n <= |u| && n <= |w|
    requires forall i :: 0 <= i < |w| ==> w[i] == 0.0
    ensures PositionAfter(u, w, n) == Sum(u[..n])
  {
    SumOfZeros(w[..n]);
  }

  /** With controls drawn from {-1, +1} and no process noise, the robot is
      never more than n metres from its start after n steps. */
  lemma NoiselessWalkBounded(u: seq<real>, w: seq<real>, n: nat)
    requires n <= |u| && n <= |w|
    requires forall i :: 0 <= i < |u| ==> u[i] == -1.0 || u[i] == 1.0
    requires forall i :: 0 <= i < |w| ==> w[i] == 0.0
    ensures -(n as real) <= PositionAfter(u, w, n) <= n as real
  {
    NoiselessPosition(u, w, n);
    SumOfUnitSteps(u[..n]);
  }

  /** The generator loop: the noise samples the random stream would draw are
      passed in as w (process) and v (measurement), one per step. */
  method SimulateRobot(u: seq<real>, w: seq<real>, v: seq<real>)
    returns (xTrue: array<real>, zMeas: array<real>)
    requires |w| == |u| && |v| == |u|
    ensures fresh(xTrue) && fresh(zMeas)
    ensures xTrue.Length == |u| && zMeas.Length == |u|
    ensures forall t :: 0 <= t < |u| ==> xTrue[t] == PositionAfter(u, w, t + 1)
    ensures forall t :: 0 <= t < |u| ==>
      xTrue[t] == (if t == 0 then 0.0 else xTrue[t - 1]) + u[t] + w[t]
    ensures forall t :: 0 <= t < |u| ==> zMeas[t] - xTrue[t] == v[t]
  {
    xTrue := new real[|u|](_ => 0.0);
    zMeas := new real[|u|](_ => 0.0);
    var x := 0.0;
    for t := 0 to |u|
      invariant x == PositionAfter(u, w, t)
      invariant forall i :: 0 <= i < t ==> xTrue[i] == PositionAfter(u, w, i + 1)
      invariant forall i :: 0 <= i < t ==>
        xTrue[i] == (if i == 0 then 0.0 else xTrue[i - 1]) + u[i] + w[i]
      invariant forall i :: 0 <= i < t ==> zMeas[i] == xTrue[i] + v[i]
    {
      PositionStep(u, w, t);
      x := x + u[t] + w[t];
      var z := x + v[t];
      xTrue[t] := x;
      zMeas[t] := z;
    }
  }

  /** The generator's noiseless scenario with controls [1, -1, 1, 1, -1]. */
  lemma NoiselessScenario(w: seq<real>)
    requires |w| == 5 && forall i :: 0 <= i < 5 ==> w[i] == 0.0
    ensures var u := [1.0, -1.0, 1.0, 1.0, -1.0];
      PositionAfter(u, w, 1) == 1.0 && PositionAfter(u, w, 2) == 0.0 &&
      PositionAfter(u, w, 3) == 1.0 && PositionAfter(u, w, 4) == 2.0 &&
      PositionAfter(u, w, 5) == 1.0
  {
    var u := [1.0, -1.0, 1.0, 1.0, -1.0];
    assert u[..0] == [];
    SumPrefixStep(u, 0);
    SumPrefixStep(u, 1);
    SumPrefixStep(u, 2);
    SumPrefixStep(u, 3);
    SumPrefixStep(u, 4);
    NoiselessPosition(u, w, 1);
    NoiselessPosition(u, w, 2);
    NoiselessPosition(u, w, 3);
    NoiselessPosition(u, w, 4);
    NoiselessPosition(u, w, 5);
  }

  // ---------------------------------------------------------------------
  // Scalar estimator
  // ---------------------------------------------------------------------

  /** A one-dimensional Gaussian belief: mean x and variance p. */
  datatype Belief = Belief(x: real, p: real)

  /** What one predict/update cycle produces: the predicted mean and
      variance, the gain applied, and the updated belief. */
  datatype StepRecord = StepRecord(xPred: real, pPred: real, k: real, est: Belief)

  /** The filter's configuration: initial belief (x0, p0), process-noise
      variance q and measurement-noise variance r. */
  datatype Params = Params(x0: real, p0: real, q: real, r: real) {
    predicate WellPosed() { p0 >= 0.0 && q >= 0.0 && r > 0.0 }
  }

  // Facts about real multiplication and division used by the proofs below.

  lemma DivMul(a: real, d: real)
    requires d != 0.0
    ensures (a / d) * d == a
  {}

  lemma DivUnique(a: real, d: real, k: real)
    requires d != 0.0 && k * d == a
    ensures a / d == k
  {}

  lemma MulLe(a: real, b: real, c: real)
    requires a <= b && c >= 0.0
    ensures a * c <= b * c
  {}

  lemma MulLt(a: real, b: real, c: real)
    requires a < b && c > 0.0
    ensures a * c < b * c
  {}

  lemma MulCongruent(a: real, b: real, c: real, d: real)
    requires a == b && c == d
    ensures a * c == b * d
  {}

  /** Scaling a non-negative x by a weight in [0, 1] keeps it in [0, x]. */
  lemma ScaleBetween(w: real, x: real)
    requires 0.0 <= w <= 1.0 && x >= 0.0
    ensures 0.0 <= w * x <= x
  {
    MulLe(0.0, w, x);
    MulLe(w, 1.0, x);
  }

  /** A convex combination of a and b lies between them. */
  lemma BlendBetween(a: real, b: real, w: real)
    requires 0.0 <= w <= 1.0
    ensures Min(a, b) <= (1.0 - w) * a + w * b <= Max(a, b)
  {
    var d := b - a;
    var e := w * d;
    assert (1.0 - w) * a + w * b == a + e;
    if d >= 0.0 {
      ScaleBetween(w, d);
      assert a <= a + e <= b;
    } else {
      ScaleBetween(w, -d);
      assert w * (-d) == -e;
      assert b <= a + e <= a;
    }
  }

  /** The Kalman gain k = pPred / (pPred + r). */
  function Gain(pPred: real, r: real): (k: real)
    requires pPred >= 0.0 && r > 0.0
    ensures 0.0 <= k < 1.0
    ensures k == 0.0 <==> pPred == 0.0
    ensures 1.0 - k == r / (pPred + r)
  {
    var d := pPred + r;
    var k := pPred / d;
    DivMul(pPred, d);
    assert (1.0 - k) * d == r;
    DivUnique(r, d, 1.0 - k);
    assert k < 1.0 by {
      if k >= 1.0 { MulLe(1.0, k, d); }
    }
    assert k >= 0.0 by {
      if k < 0.0 { MulLe(k, 0.0, d); }
    }
    k
  }

  /** The gain grows with the predicted variance and shrinks as the
      measurement noise grows. */
  lemma GainMonotone(p1: real, p2: real, r1: real, r2: real)
    requires 0.0 <= p1 <= p2 && 0.0 < r2 <= r1
    ensures Gain(p1, r1) <= Gain(p2, r2)
  {
    var d1, d2 := p1 + r1, p2 + r2;
    var k1, k2 := Gain(p1, r1), Gain(p2, r2);
    DivMul(p1, d1);
    DivMul(p2, d2);
    MulLe(p1, p2, r2);
    MulLe(r2, r1, p2);
    assert k1 * d1 * d2 == p1 * d2 <= p2 * d1 == k2 * d2 * d1;
    if k1 > k2 {
      MulLt(k2, k1, d1 * d2);
      assert false;
    }
  }

  /** How far the gain is from its limits: k <= p / r, and when p > 0,
      1 - k <= r / p. So k tends to 0 as r grows without bound (k <= eps
      once r >= p / eps) and to 1 as r tends to 0 (k >= 1 - eps once
      r <= eps p). */
  lemma GainLimits(p: real, r: real)
    requires p >= 0.0 && r > 0.0
    ensures Gain(p, r) <= p / r
    ensures p > 0.0 ==> 1.0 - Gain(p, r) <= r / p
  {
    var k := Gain(p, r);
    DivMul(p, p + r);
    DivMul(p, r);
    assert k * (p + r) == p;
    assert k <= p / r by {
      MulLe(r, p + r, k);
      assert k * r <= p;
      if k > p / r { MulLt(p / r, k, r); }
    }
    if p > 0.0 {
      var c := 1.0 - k;
      DivMul(r, p);
      assert c * (p + r) == r;
      assert c <= r / p by {
        MulLe(p, p + r, c);
        assert c * p <= r;
        if c > r / p { MulLt(r / p, c, p); }
      }
    }
  }

  /** One predict/update cycle from belief b with control u and measurement z. */
  function Step(b: Belief, u: real, z: real, q: real, r: real): (s: StepRecord)
    requires b.p >= 0.0 && q >= 0.0 && r > 0.0
    ensures s.xPred == b.x + u && s.pPred == b.p + q
    ensures 0.0 <= s.k < 1.0 && (s.k == 0.0 <==> s.pPred == 0.0)
    ensures s.est.x == (1.0 - s.k) * s.xPred + s.k * z
    ensures Min(s.xPred, z) <= s.est.x <= Max(s.xPred, z)
    ensures 0.0 <= s.est.p <= s.pPred
    ensures s.est.p == s.k * r
  {
    // Predict
    var xPred := b.x + u;
    var pPred := b.p + q;
    // Update
    var k := Gain(pPred, r);
    var x := xPred + k * (z - xPred);
    var p := (1.0 - k) * pPred;
    DivMul(pPred, pPred + r);
    BlendBetween(xPred, z, k);
    ScaleBetween(1.0 - k, pPred);
    StepRecord(xPred, pPred, k, Belief(x, p))
  }

  /** Reference definition of the measurement update: the normalised
      product of two Gaussian beliefs, whose mean weights each mean by the
      other's variance and whose variance is the harmonic combination. */
  function Fuse(a: Belief, b: Belief): (f: Belief)
    requires a.p >= 0.0 && b.p > 0.0
    ensures 0.0 <= f.p <= a.p && f.p < b.p
    ensures Min(a.x, b.x) <= f.x <= Max(a.x, b.x)
  {
    Belief(FusedMean(a, b), FusedVariance(a.p, b.p))
  }

  /** The precision-weighted mean (pb xa + pa xb) / (pa + pb): the blend of
      the two means with weight pa / (pa + pb) on the second. */
  function FusedMean(a: Belief, b: Belief): (m: real)
    requires a.p >= 0.0 && b.p > 0.0
    ensures Min(a.x, b.x) <= m <= Max(a.x, b.x)
  {
    WeightedMean(a.x, b.x, a.p, b.p);
    BlendBetween(a.x, b.x, a.p / (a.p + b.p));
    (b.p * a.x + a.p * b.x) / (a.p + b.p)
  }

  /** The precision-weighted mean is the blend with weight pa / (pa + pb). */
  lemma WeightedMean(xa: real, xb: real, pa: real, pb: real)
    requires pa >= 0.0 && pb > 0.0
    ensures 0.0 <= pa / (pa + pb) <= 1.0
    ensures (pb * xa + pa * xb) / (pa + pb) == (1.0 - pa / (pa + pb)) * xa + pa / (pa + pb) * xb
  {
    var s := pa + pb;
    var w := pa / s;
    DivMul(pa, s);
    assert ((1.0 - w) * xa + w * xb) * s == s * xa - w * s * xa + w * s * xb;
    assert ((1.0 - w) * xa + w * xb) * s == pb * xa + pa * xb;
    DivUnique(pb * xa + pa * xb, s, (1.0 - w) * xa + w * xb);
    if w < 0.0 { MulLt(w, 0.0, s); }
    if w > 1.0 { MulLt(1.0, w, s); }
  }

  /** The combined variance pa pb / (pa + pb) is below both variances. */
  function FusedVariance(pa: real, pb: real): (h: real)
    requires pa >= 0.0 && pb > 0.0
    ensures 0.0 <= h <= pa && h < pb
  {
    DivMul(pa * pb, pa + pb);
    ScaledBelow(pa, pb, pa + pb, pa * pb / (pa + pb));
    assert pa * pb / (pa + pb) <= pa by {
      if pa > 0.0 {
        ScaledBelow(pb, pa, pa + pb, pa * pb / (pa + pb));
      }
    }
    pa * pb / (pa + pb)
  }

  /** If h s = a b with 0 <= a < s and b > 0, then 0 <= h < b. */
  lemma ScaledBelow(a: real, b: real, s: real, h: real)
    requires a >= 0.0 && b > 0.0 && a < s && h * s == a * b
    ensures 0.0 <= h < b
  {
    MulLt(a, s, b);
    assert a * b < s * b;
    if h >= b {
      MulLe(b, h, s);
    }
    if h < 0.0 {
      MulLt(h, 0.0, s);
      MulLe(0.0, a, b);
    }
  }

  /** Fusion does not depend on the order of the two beliefs. */
  lemma FuseCommutes(a: Belief, b: Belief)
    requires a.p > 0.0 && b.p > 0.0
    ensures Fuse(a, b) == Fuse(b, a)
  {
    assert a.p + b.p == b.p + a.p;
  }

  /** Information (inverse variance) adds up under fusion. */
  lemma FuseAddsInformation(a: Belief, b: Belief)
    requires a.p > 0.0 && b.p > 0.0
    ensures 1.0 / Fuse(a, b).p == 1.0 / a.p + 1.0 / b.p
  {
    var s := a.p + b.p;
    var m := a.p * b.p;
    var info := 1.0 / a.p + 1.0 / b.p;
    assert m > 0.0;
    DivMul(1.0, a.p);
    DivMul(1.0, b.p);
    assert info * m == (1.0 / a.p) * a.p * b.p + (1.0 / b.p) * b.p * a.p;
    DivUnique(s, m, info);
    DivMul(m, s);
    DivMul(s, m);
    assert (s / m) * (m / s) * (s * m) == ((s / m) * m) * ((m / s) * s);
    MulCongruent((s / m) * m, s, (m / s) * s, m);
    assert (s / m) * (m / s) == 1.0 by {
      var e := (s / m) * (m / s);
      if e < 1.0 { MulLt(e, 1.0, s * m); }
      if e > 1.0 { MulLt(1.0, e, s * m); }
    }
    DivUnique(1.0, m / s, s / m);
  }

  /** The filter's update is exactly the fusion of the prediction with the
      measurement, taken as a belief of mean z and variance r. */
  lemma StepIsFusion(b: Belief, u: real, z: real, q: real, r: real)
    requires b.p >= 0.0 && q >= 0.0 && r > 0.0
    ensures var s := Step(b, u, z, q, r);
      s.est == Fuse(Belief(s.xPred, s.pPred), Belief(z, r))
  {
    var s := Step(b, u, z, q, r);
    var d := s.pPred + r;
    DivMul(s.pPred, d);
    assert s.k * d == s.pPred;
    assert (1.0 - s.k) * d == r;
    assert s.est.x * d == r * s.xPred + s.pPred * z by {
      assert s.est.x * d == (1.0 - s.k) * d * s.xPred + s.k * d * z;
    }
    assert s.est.p * d == s.pPred * r by {
      assert s.est.p * d == s.k * d * r;
    }
    DivUnique(r * s.xPred + s.pPred * z, d, s.est.x);
    DivUnique(s.pPred * r, d, s.est.p);
  }

  /** The belief a history leaves behind: the last updated belief, or the
      initial belief (x0, p0) when no step has run yet. */
  function Latest(c: Params, h: seq<StepRecord>): Belief
  {
    if h == [] then Belief(c.x0, c.p0) else h[|h| - 1].est
  }

  /** The history of the first n steps: what the four history arrays of the
      filter hold, one record per index. Each step starts from the belief
      the steps before it left. */
  function Trace(u: seq<real>, z: seq<real>, c: Params, n: nat): (h: seq<StepRecord>)
    requires c.WellPosed() && |z| <= |u| && n <= |z|
    ensures |h| == n && Latest(c, h).p >= 0.0
    ensures forall i :: 0 <= i < n ==> h[i].est.p >= 0.0
    decreases n
  {
    if n == 0 then []
    else
      var prev := Trace(u, z, c, n - 1);
      prev + [Step(Latest(c, prev), u[n - 1], z[n - 1], c.q, c.r)]
  }

  /** The belief after the first n steps. */
  function EstimateAfter(u: seq<real>, z: seq<real>, c: Params, n: nat): Belief
    requires c.WellPosed() && |z| <= |u| && n <= |z|
  {
    Latest(c, Trace(u, z, c, n))
  }

  /** One more step extends the history by the step taken from the belief
      the earlier steps left. */
  lemma TraceStep(u: seq<real>, z: seq<real>, c: Params, n: nat)
    requires c.WellPosed() && |z| <= |u| && n < |z|
    ensures var s := Step(EstimateAfter(u, z, c, n), u[n], z[n], c.q, c.r);
      Trace(u, z, c, n + 1) == Trace(u, z, c, n) + [s] && EstimateAfter(u, z, c, n + 1) == s.est
  {}

  /** A longer run never rewrites earlier entries: the first m records of
      the history of n steps are the history of m steps. */
  lemma {:induction false} TracePrefix(u: seq<real>, z: seq<real>, c: Params, m: nat, n: nat)
    requires c.WellPosed() && |z| <= |u| && m <= n <= |z|
    ensures Trace(u, z, c, n)[..m] == Trace(u, z, c, m)
    decreases n
  {
    if m < n {
      TracePrefix(u, z, c, m, n - 1);
      assert Trace(u, z, c, n)[..n - 1] == Trace(u, z, c, n - 1);
      assert Trace(u, z, c, n)[..m] == Trace(u, z, c, n)[..n - 1][..m];
    } else {
      assert Trace(u, z, c, n)[..m] == Trace(u, z, c, n);
    }
  }

  /** Entry t of the history is the step taken, with control u[t] and
      measurement z[t], from the belief the entries before it leave:
      entry t - 1's updated belief, or (x0, p0) when t = 0. */
  lemma TraceEntry(u: seq<real>, z: seq<real>, c: Params, n: nat, t: nat)
    requires c.WellPosed() && |z| <= |u| && t < n <= |z|
    ensures Latest(c, Trace(u, z, c, n)[..t]).p >= 0.0
    ensures Trace(u, z, c, n)[t] == Step(Latest(c, Trace(u, z, c, n)[..t]), u[t], z[t], c.q, c.r)
  {
    var h := Trace(u, z, c, n);
    TracePrefix(u, z, c, t + 1, n);
    TracePrefix(u, z, c, t, n);
    assert h[t] == h[..t + 1][t];
  }

  /** The per-step guarantees, read off the history: the gain lies in
      [0, 1); the variance is non-negative and never exceeds the previous
      variance plus q; the prediction is the previous estimate plus the
      control; the estimate lies between prediction and measurement. */
  lemma HistoryGuarantees(u: seq<real>, z: seq<real>, c: Params, n: nat, t: nat)
    requires c.WellPosed() && |z| <= |u| && t < n <= |z|
    ensures 0.0 <= Trace(u, z, c, n)[t].k < 1.0
    ensures 0.0 <= Trace(u, z, c, n)[t].est.p <= Latest(c, Trace(u, z, c, n)[..t]).p + c.q
    ensures Trace(u, z, c, n)[t].xPred == Latest(c, Trace(u, z, c, n)[..t]).x + u[t]
    ensures Min(Trace(u, z, c, n)[t].xPred, z[t]) <= Trace(u, z, c, n)[t].est.x <= Max(Trace(u, z, c, n)[t].xPred, z[t])
  {
    TraceEntry(u, z, c, n, t);
  }

  /** The filter is causal: the first n records depend only on the first n
      controls and measurements. */
  lemma {:induction false} Causal(u: seq<real>, z: seq<real>, u': seq<real>, z': seq<real>, c: Params, n: nat)
    requires c.WellPosed() && |z| <= |u| && |z'| <= |u'| && n <= |z| && n <= |z'|
    requires u[..n] == u'[..n] && z[..n] == z'[..n]
    ensures Trace(u, z, c, n) == Trace(u', z', c, n)
  {
    if n > 0 {
      assert u[n - 1] == u[..n][n - 1] == u'[n - 1];
      assert z[n - 1] == z[..n][n - 1] == z'[n - 1];
      assert u[..n - 1] == u[..n][..n - 1];
      assert u'[..n - 1] == u'[..n][..n - 1];
      assert z[..n - 1] == z[..n][..n - 1];
      assert z'[..n - 1] == z'[..n][..n - 1];
      Causal(u, z, u', z', c, n - 1);
    }
  }

  /** The prediction-only (dead-reckoning) estimate after n steps: x0 plus
      the controls so far, ignoring every measurement. */
  function DeadReckoned(u: seq<real>, x0: real, n: nat): real
    requires n <= |u|
  {
    x0 + Sum(u[..n])
  }

  /** Dead reckoning: with a certain prior (p0 = 0) and no process noise the
      filter never trusts a measurement (every gain is 0), the variance stays
      0, and the estimate is x0 plus the sum of the controls so far. */
  lemma {:induction false} DeadReckoning(u: seq<real>, z: seq<real>, c: Params, n: nat)
    requires c.WellPosed() && |z| <= |u| && n <= |z|
    requires c.p0 == 0.0 && c.q == 0.0
    ensures EstimateAfter(u, z, c, n) == Belief(DeadReckoned(u, c.x0, n), 0.0)
    ensures n < |z| ==> Trace(u, z, c, n + 1)[n].k == 0.0
  {
    if n > 0 {
      DeadReckoning(u, z, c, n - 1);
      TraceStep(u, z, c, n - 1);
      SumPrefixStep(u, n - 1);
    }
    if n < |z| {
      TraceStep(u, z, c, n);
    }
  }

  /** Variance of a static state after m measurements of variance r, from
      a prior of variance p0: p0 r / (r + m p0). In information form,
      1 / variance grows by 1 / r with every measurement. */
  function ShrunkVariance(p0: real, r: real, m: real): real
    requires p0 >= 0.0 && r > 0.0 && m >= 0.0
  {
    MulLe(0.0, m, p0);
    p0 * r / (r + m * p0)
  }

  /** Gain of the m-th measurement (counting from 1) of a static state:
      p0 / (r + m p0). */
  function ShrunkGain(p0: real, r: real, m: real): real
    requires p0 >= 0.0 && r > 0.0 && m >= 0.0
  {
    MulLe(0.0, m, p0);
    p0 / (r + m * p0)
  }

  /** Without process noise the variance after n steps is ShrunkVariance of
      n measurements. */
  lemma {:induction false} ShrinkWithoutProcessNoise(u: seq<real>, z: seq<real>, c: Params, n: nat)
    requires c.WellPosed() && |z| <= |u| && n <= |z|
    requires c.q == 0.0
    ensures EstimateAfter(u, z, c, n).p == ShrunkVariance(c.p0, c.r, n as real)
  {
    if n > 0 {
      var b := EstimateAfter(u, z, c, n - 1);
      ShrinkWithoutProcessNoise(u, z, c, n - 1);
      TraceStep(u, z, c, n - 1);
      ShrinkStep(b, u[n - 1], z[n - 1], c.q, c.p0, c.r, (n - 1) as real, n as real);
    } else {
      DivUnique(c.p0 * c.r, c.r, c.p0);
    }
  }

  /** Without process noise the gain of step n is ShrunkGain of the
      (n + 1)-th measurement, and the variance after it is ShrunkVariance of
      n + 1 measurements. */
  lemma ShrinkingGain(u: seq<real>, z: seq<real>, c: Params, n: nat)
    requires c.WellPosed() && |z| <= |u| && n < |z|
    requires c.q == 0.0
    ensures Trace(u, z, c, n + 1)[n].k == ShrunkGain(c.p0, c.r, n as real + 1.0)
    ensures Trace(u, z, c, n + 1)[n].est.p == ShrunkVariance(c.p0, c.r, n as real + 1.0)
  {
    var b := EstimateAfter(u, z, c, n);
    ShrinkWithoutProcessNoise(u, z, c, n);
    TraceStep(u, z, c, n);
    ShrinkStep(b, u[n], z[n], c.q, c.p0, c.r, n as real, n as real + 1.0);
  }

  /** One step without process noise, from the variance after m
      measurements: the gain and the variance of the next one. */
  lemma ShrinkStep(b: Belief, u: real, z: real, q: real, p0: real, r: real, m: real, m': real)
    requires q == 0.0 && p0 >= 0.0 && r > 0.0 && m >= 0.0 && m' == m + 1.0
    requires b.p == ShrunkVariance(p0, r, m)
    ensures b.p >= 0.0
    ensures Step(b, u, z, q, r).k == ShrunkGain(p0, r, m')
    ensures Step(b, u, z, q, r).est.p == ShrunkVariance(p0, r, m')
  {
    ShrinkArith(p0, r, m, m', b.p);
  }

  /** The arithmetic behind ShrinkStep, on plain reals. */
  lemma ShrinkArith(p0: real, r: real, m: real, m': real, pn: real)
    requires p0 >= 0.0 && r > 0.0 && m >= 0.0 && m' == m + 1.0
    requires pn == ShrunkVariance(p0, r, m)
    ensures pn >= 0.0
    ensures Gain(pn, r) == ShrunkGain(p0, r, m')
    ensures (1.0 - Gain(pn, r)) * pn == ShrunkVariance(p0, r, m')
  {
    MulLe(0.0, m, p0);
    ShrunkVarianceCleared(p0, r, m, pn);
    assert r + m' * p0 == (r + m * p0) + p0;
    NextGain(p0, r, r + m * p0, pn);
    var k := Gain(pn, r);
    assert (1.0 - k) * pn == k * r;
    DivUnique(p0 * r, r + m' * p0, k * r);
  }

  /** ShrunkVariance with its denominator cleared. */
  lemma ShrunkVarianceCleared(p0: real, r: real, m: real, pn: real)
    requires p0 >= 0.0 && r > 0.0 && m >= 0.0
    requires pn == ShrunkVariance(p0, r, m)
    ensures pn >= 0.0 && pn * (r + m * p0) == p0 * r
  {
    MulLe(0.0, m, p0);
    DivMul(p0 * r, r + m * p0);
    MulLe(0.0, p0, r);
    if pn < 0.0 { MulLt(pn, 0.0, r + m * p0); }
  }

  /** If pn d = p0 r then the gain from variance pn is p0 / (d + p0). */
  lemma NextGain(p0: real, r: real, d: real, pn: real)
    requires p0 >= 0.0 && r > 0.0 && d > 0.0 && pn >= 0.0
    requires pn * d == p0 * r
    ensures pn / (pn + r) == p0 / (d + p0)
  {
    var k' := p0 / (d + p0);
    DivMul(p0, d + p0);
    assert (pn + r) * d == r * (d + p0);
    assert k' * (pn + r) * d == k' * (d + p0) * r;
    MulCongruent(k' * (pn + r), pn, d, d);
    if k' * (pn + r) < pn { MulLt(k' * (pn + r), pn, d); }
    if k' * (pn + r) > pn { MulLt(pn, k' * (pn + r), d); }
    DivUnique(pn, pn + r, k');
  }

  /** The filter run on a noiseless trajectory started where the robot
      starts (x0 = 0) reproduces the true positions exactly, whatever p0, q
      and r are. This is not because the filter trusts the measurements:
      with p0 = q = 0 every gain is 0 (DeadReckoning), and the estimate is
      exact because prediction and measurement already agree. */
  lemma {:induction false} NoiselessPipelineExact(u: seq<real>, z: seq<real>, c: Params, n: nat)
    requires c.WellPosed() && |z| <= |u| && n <= |z|
    requires c.x0 == 0.0
    requires forall t :: 0 <= t < |z| ==> z[t] == Sum(u[..t + 1])
    ensures EstimateAfter(u, z, c, n).x == Sum(u[..n])
    ensures n > 0 ==> EstimateAfter(u, z, c, n).x == z[n - 1]
  {
    if n > 0 {
      NoiselessPipelineExact(u, z, c, n - 1);
      TraceStep(u, z, c, n - 1);
      SumPrefixStep(u, n - 1);
    }
  }

  /** The textbook run: with a unit prior, unit measurement noise and no
      process noise, the first three steps have variances and gains 1/2,
      1/3 and 1/4, whatever the controls and measurements are. */
  lemma ShrinkingScenario(u: seq<real>, z: seq<real>, c: Params)
    requires |z| == 3 && |u| == 3 && c == Params(0.0, 1.0, 0.0, 1.0)
    ensures var h := Trace(u, z, c, 3);
      && h[0].est.p == 1.0 / 2.0 && h[0].k == 1.0 / 2.0
      && h[1].est.p == 1.0 / 3.0 && h[1].k == 1.0 / 3.0
      && h[2].est.p == 1.0 / 4.0 && h[2].k == 1.0 / 4.0
  {
    ShrinkingGain(u, z, c, 0);
    ShrinkingGain(u, z, c, 1);
    ShrinkingGain(u, z, c, 2);
    TracePrefix(u, z, c, 1, 3);
    TracePrefix(u, z, c, 2, 3);
    assert Trace(u, z, c, 3)[0] == Trace(u, z, c, 1)[0];
    assert Trace(u, z, c, 3)[1] == Trace(u, z, c, 2)[1];
  }

  // ---------------------------------------------------------------------
  // The recorded gains and estimates as the measurement noise varies
  // ---------------------------------------------------------------------

  function Abs(a: real): real { if a < 0.0 then -a else a }

  /** Bound on the variance after n steps, free of r: p0 + n q. */
  function VarianceCap(c: Params, n: nat): real
  {
    c.p0 + (n as real) * c.q
  }

  lemma VarianceCapStep(c: Params, n: nat)
    requires c.WellPosed()
    ensures 0.0 <= VarianceCap(c, n) <= VarianceCap(c, n + 1) == VarianceCap(c, n) + c.q
  {
    MulLe(0.0, n as real, c.q);
  }

  /** Dividing by a positive d keeps the order. */
  lemma DivLe(a: real, b: real, d: real)
    requires a <= b && d > 0.0
    ensures a / d <= b / d
  {
    DivMul(a, d);
    DivMul(b, d);
  }

  /** Dividing a non-negative a by a larger denominator gives less. */
  lemma DivAntitone(a: real, d1: real, d2: real)
    requires a >= 0.0 && 0.0 < d1 <= d2
    ensures a / d2 <= a / d1
  {
    DivMul(a, d1);
    DivMul(a, d2);
    MulLe(d1, d2, a / d1);
    if a / d2 > a / d1 { MulLt(a / d1, a / d2, d2); }
  }

  /** The variance never exceeds p0 + n q, whatever the measurement noise. */
  lemma {:induction false} VarianceBounded(u: seq<real>, z: seq<real>, c: Params, n: nat)
    requires c.WellPosed() && |z| <= |u| && n <= |z|
    ensures EstimateAfter(u, z, c, n).p <= VarianceCap(c, n)
  {
    if n > 0 {
      VarianceBounded(u, z, c, n - 1);
      TraceStep(u, z, c, n - 1);
      VarianceCapStep(c, n - 1);
    }
  }

  /** The gain recorded at step n is at most (p0 + (n + 1) q) / r, a bound
      in which r appears only as divisor: so k_hist[n] <= eps once
      r >= (p0 + (n + 1) q) / eps, and k_hist[n] tends to 0 as r grows. */
  lemma RecordedGainBound(u: seq<real>, z: seq<real>, c: Params, n: nat)
    requires c.WellPosed() && |z| <= |u| && n < |z|
    ensures Trace(u, z, c, n + 1)[n].k <= VarianceCap(c, n + 1) / c.r
  {
    var b := EstimateAfter(u, z, c, n);
    VarianceBounded(u, z, c, n);
    VarianceCapStep(c, n);
    TraceStep(u, z, c, n);
    var pPred := b.p + c.q;
    GainLimits(pPred, c.r);
    DivLe(pPred, VarianceCap(c, n + 1), c.r);
  }

  /** With process noise q > 0 the predicted variance is at least q, so the
      recorded gain is within r / q of 1: k_hist[n] >= 1 - eps once
      r <= eps q, and k_hist[n] tends to 1 as r tends to 0. */
  lemma RecordedGainNearOne(u: seq<real>, z: seq<real>, c: Params, n: nat)
    requires c.WellPosed() && |z| <= |u| && n < |z|
    requires c.q > 0.0
    ensures 1.0 - Trace(u, z, c, n + 1)[n].k <= c.r / c.q
  {
    var b := EstimateAfter(u, z, c, n);
    TraceStep(u, z, c, n);
    var pPred := b.p + c.q;
    GainLimits(pPred, c.r);
    DivAntitone(c.r, c.q, pPred);
  }

  /** Without process noise the gain of step n is at most 1 / (n + 1) for
      every r: the prior's certainty accumulates, so from the second step
      on the recorded gain does not tend to 1 as r tends to 0 (with p0 = 1,
      k_hist[1] = 1 / (r + 2) <= 1 / 2). */
  lemma GainCappedWithoutProcessNoise(u: seq<real>, z: seq<real>, c: Params, n: nat)
    requires c.WellPosed() && |z| <= |u| && n < |z|
    requires c.q == 0.0
    ensures (n as real + 1.0) * Trace(u, z, c, n + 1)[n].k <= 1.0
  {
    ShrinkingGain(u, z, c, n);
    ShrunkGainCap(c.p0, c.r, n as real + 1.0);
  }

  /** m measurements' worth of gain: m p0 / (r + m p0) <= 1. */
  lemma ShrunkGainCap(p0: real, r: real, m: real)
    requires p0 >= 0.0 && r > 0.0 && m >= 0.0
    ensures m * ShrunkGain(p0, r, m) <= 1.0
  {
    var d := r + m * p0;
    var g := ShrunkGain(p0, r, m);
    MulLe(0.0, m, p0);
    DivMul(p0, d);
    assert g * d == p0;
    assert (m * g) * d == m * p0;
    if m * g > 1.0 { MulLt(1.0, m * g, d); }
  }

  /** Sum over the first n steps of how far each measurement lies from the
      dead-reckoning estimate of the same step. */
  function Disagreement(u: seq<real>, z: seq<real>, x0: real, n: nat): (s: real)
    requires n <= |z| <= |u|
    ensures s >= 0.0
  {
    if n == 0 then 0.0
    else Disagreement(u, z, x0, n - 1) + Abs(z[n - 1] - DeadReckoned(u, x0, n))
  }

  lemma DisagreementStep(u: seq<real>, z: seq<real>, x0: real, n: nat)
    requires n < |z| <= |u|
    ensures Disagreement(u, z, x0, n) >= 0.0
    ensures Disagreement(u, z, x0, n + 1) == Disagreement(u, z, x0, n) + Abs(z[n] - DeadReckoned(u, x0, n + 1))
  {}

  lemma DeadReckonedStep(u: seq<real>, x0: real, n: nat)
    requires n < |u|
    ensures DeadReckoned(u, x0, n + 1) == DeadReckoned(u, x0, n) + u[n]
  {
    SumPrefixStep(u, n);
  }

  /** The update of one step, with the prediction spelled out. */
  lemma StepUpdate(b: Belief, u: real, z: real, q: real, r: real)
    requires b.p >= 0.0 && q >= 0.0 && r > 0.0
    ensures 0.0 <= Step(b, u, z, q, r).k < 1.0
    ensures Step(b, u, z, q, r).est.x == (1.0 - Step(b, u, z, q, r).k) * (b.x + u) + Step(b, u, z, q, r).k * z
  {
    var s := Step(b, u, z, q, r);
    MulCongruent(1.0 - s.k, 1.0 - s.k, s.xPred, b.x + u);
  }

  /** k <= a / r with r > 0 gives k r <= a. */
  lemma ClearDivisor(k: real, a: real, r: real)
    requires r > 0.0 && k <= a / r
    ensures k * r <= a
  {
    DivMul(a, r);
    MulLe(k, a / r, r);
  }

  /** The estimate after step n + 1 is the step taken from the estimate
      after step n. */
  lemma NextEstimate(u: seq<real>, z: seq<real>, c: Params, n: nat)
    requires c.WellPosed() && |z| <= |u| && n < |z|
    ensures EstimateAfter(u, z, c, n + 1).x == Step(EstimateAfter(u, z, c, n), u[n], z[n], c.q, c.r).est.x
  {
    TraceStep(u, z, c, n);
  }

  /** A step whose predicted variance is at most a has gain k with k r <= a. */
  lemma StepGainCleared(b: Belief, u: real, z: real, q: real, r: real, a: real)
    requires b.p >= 0.0 && q >= 0.0 && r > 0.0 && b.p + q <= a
    ensures Step(b, u, z, q, r).k * r <= a
  {
    var pPred := b.p + q;
    GainLimits(pPred, r);
    DivLe(pPred, a, r);
    var k := Step(b, u, z, q, r).k;
    ClearDivisor(k, a, r);
  }

  /** Step n of the filter, as the facts the deviation bound needs: the new
      estimate is the step taken from the old one, its predicted variance is
      within the variance cap, and dead reckoning, the cap and the
      disagreement each advance by one term. */
  lemma DeviationInputs(u: seq<real>, z: seq<real>, c: Params, n: nat)
    requires c.WellPosed() && |z| <= |u| && n < |z|
    ensures EstimateAfter(u, z, c, n).p >= 0.0
    ensures EstimateAfter(u, z, c, n + 1).x == Step(EstimateAfter(u, z, c, n), u[n], z[n], c.q, c.r).est.x
    ensures EstimateAfter(u, z, c, n).p + c.q <= VarianceCap(c, n + 1)
    ensures Disagreement(u, z, c.x0, n) >= 0.0
    ensures Disagreement(u, z, c.x0, n + 1) == Disagreement(u, z, c.x0, n) + Abs(z[n] - DeadReckoned(u, c.x0, n + 1))
    ensures 0.0 <= VarianceCap(c, n) <= VarianceCap(c, n + 1)
    ensures DeadReckoned(u, c.x0, n + 1) == DeadReckoned(u, c.x0, n) + u[n]
  {
    NextEstimate(u, z, c, n);
    VarianceBounded(u, z, c, n);
    VarianceCapStep(c, n);
    DisagreementStep(u, z, c.x0, n);
    DeadReckonedStep(u, c.x0, n);
  }

  /** Measured against dead reckoning (dm before the step, dn = dm + u
      after it), the error of one step is the blend, under its gain k in
      [0, 1), of the error before it and the measurement's offset:
      e' = (1 - k) e + k d. */
  lemma StepError(b: Belief, u: real, z: real, q: real, r: real, dm: real, dn: real)
    requires b.p >= 0.0 && q >= 0.0 && r > 0.0 && dn == dm + u
    ensures 0.0 <= Step(b, u, z, q, r).k < 1.0
    ensures Step(b, u, z, q, r).est.x - dn
      == (1.0 - Step(b, u, z, q, r).k) * (b.x - dm) + Step(b, u, z, q, r).k * (z - dn)
  {
    StepUpdate(b, u, z, q, r);
    var k := Step(b, u, z, q, r).k;
    var x' := Step(b, u, z, q, r).est.x;
    BlendOffset(x', b.x, u, z, k, dm, dn);
  }

  lemma BlendOffset(x': real, bx: real, du: real, z: real, k: real, dm: real, dn: real)
    requires x' == (1.0 - k) * (bx + du) + k * z && dn == dm + du
    ensures x' - dn == (1.0 - k) * (bx - dm) + k * (z - dn)
  {}

  /** r |e| <= a s: the deviation e, with r cleared, within a times s. */
  predicate Within(e: real, r: real, a: real, s: real)
  {
    Abs(e) * r <= a * s
  }

  /** The deviation bound carried over one step, for a single Step: with
      the predicted variance at most a' (so k r <= a') and a <= a',
      r |e| <= a s gives r |e'| <= a' (s + |d|). */
  lemma StepDeviation(b: Belief, u: real, z: real, q: real, r: real, x': real, dm: real, dn: real,
                      a: real, a': real, s: real, s': real)
    requires b.p >= 0.0 && q >= 0.0 && r > 0.0 && x' == Step(b, u, z, q, r).est.x
    requires dn == dm + u && s' == s + Abs(z - dn) && s >= 0.0
    requires b.p + q <= a' && 0.0 <= a <= a'
    requires Within(b.x - dm, r, a, s)
    ensures Within(x' - dn, r, a', s')
  {
    StepGainCleared(b, u, z, q, r, a');
    StepError(b, u, z, q, r, dm, dn);
    var k := Step(b, u, z, q, r).k;
    DeviationStep(b.x - dm, x' - dn, z - dn, k, r, a, a', s, s');
  }

  /** |w a| = w |a| for w >= 0. */
  lemma ScaleAbs(w: real, a: real)
    requires w >= 0.0
    ensures Abs(w * a) == w * Abs(a)
  {
    if a < 0.0 { MulLe(0.0, -a, w); } else { MulLe(0.0, a, w); }
  }

  lemma Triangle(a: real, b: real)
    ensures Abs(a + b) <= Abs(a) + Abs(b)
  {}

  /** The triangle inequality for a blend: |(1 - k) e + k d| <= |e| + k |d|. */
  lemma BlendAbs(e: real, d: real, k: real)
    requires 0.0 <= k < 1.0
    ensures Abs((1.0 - k) * e + k * d) <= Abs(e) + k * Abs(d)
  {
    ScaleAbs(1.0 - k, e);
    ScaleAbs(k, d);
    ScaleBetween(1.0 - k, Abs(e));
    Triangle((1.0 - k) * e, k * d);
  }

  lemma Spread(x: real, y: real, k: real, r: real)
    ensures (x + k * y) * r == x * r + (k * r) * y
  {}

  lemma Distribute(c: real, x: real, y: real)
    ensures c * (x + y) == c * x + c * y
  {}

  /** One step of the deviation bound: if e' = (1 - k) e + k d, k r <= a',
      a <= a' and r |e| <= a s, then r |e'| <= a' (s + |d|). */
  lemma DeviationStep(e: real, e': real, d: real, k: real, r: real, a: real, a': real, s: real, s': real)
    requires e' == (1.0 - k) * e + k * d && s' == s + Abs(d)
    requires 0.0 <= k < 1.0 && r > 0.0 && k * r <= a' && 0.0 <= a <= a' && s >= 0.0
    requires Abs(e) * r <= a * s
    ensures Abs(e') * r <= a' * s'
  {
    BlendAbs(e, d, k);
    DeviationArith(Abs(e), Abs(e'), Abs(d), k, r, a, a', s);
  }

  /** The arithmetic of DeviationStep, on the absolute values. */
  lemma DeviationArith(ae: real, ae': real, ad: real, k: real, r: real, a: real, a': real, s: real)
    requires ae >= 0.0 && ad >= 0.0 && ae' <= ae + k * ad
    requires 0.0 <= k < 1.0 && r > 0.0 && k * r <= a' && 0.0 <= a <= a' && s >= 0.0
    requires ae * r <= a * s
    ensures ae' * r <= a' * (s + ad)
  {
    MulLe(ae', ae + k * ad, r);
    Spread(ae, ad, k, r);
    MulLe(k * r, a', ad);
    MulLe(a, a', s);
    Distribute(a', s, ad);
  }

  /** The deviation bound carried over step n of the filter. */
  lemma PredictionOnlyStep(u: seq<real>, z: seq<real>, c: Params, n: nat)
    requires c.WellPosed() && |z| <= |u| && n < |z|
    requires Within(EstimateAfter(u, z, c, n).x - DeadReckoned(u, c.x0, n),
                    c.r, VarianceCap(c, n), Disagreement(u, z, c.x0, n))
    ensures Within(EstimateAfter(u, z, c, n + 1).x - DeadReckoned(u, c.x0, n + 1),
                   c.r, VarianceCap(c, n + 1), Disagreement(u, z, c.x0, n + 1))
  {
    DeviationInputs(u, z, c, n);
    var b := EstimateAfter(u, z, c, n);
    var x' := EstimateAfter(u, z, c, n + 1).x;
    var dm, dn := DeadReckoned(u, c.x0, n), DeadReckoned(u, c.x0, n + 1);
    var a, a' := VarianceCap(c, n), VarianceCap(c, n + 1);
    var s, s' := Disagreement(u, z, c.x0, n), Disagreement(u, z, c.x0, n + 1);
    StepDeviation(b, u[n], z[n], c.q, c.r, x', dm, dn, a, a', s, s');
  }

  /** Prediction-only limit: r times the distance of the estimate after n
      steps from the dead-reckoning estimate x0 + u[0] + ... + u[n-1] is at
      most (p0 + n q) times the total disagreement of the measurements from
      dead reckoning (Within). Dividing by r, the distance is at most
      ((p0 + n q) / r) times a quantity free of r, so for fixed inputs the
      estimate tends to the dead-reckoning estimate as r grows. */
  lemma {:induction false} PredictionOnlyLimit(u: seq<real>, z: seq<real>, c: Params, n: nat)
    requires c.WellPosed() && |z| <= |u| && n <= |z|
    ensures Within(EstimateAfter(u, z, c, n).x - DeadReckoned(u, c.x0, n),
                   c.r, VarianceCap(c, n), Disagreement(u, z, c.x0, n))
  {
    if n > 0 {
      PredictionOnlyLimit(u, z, c, n - 1);
      PredictionOnlyStep(u, z, c, n - 1);
    }
  }

  /** One pass of the filter's loop body: predict from the belief (x, p)
      with control u, then update with measurement z. */
  method PredictUpdate(x: real, p: real, u: real, z: real, q: real, r: real)
    returns (xPred: real, pPred: real, k: real, xNew: real, pNew: real)
    requires p >= 0.0 && q >= 0.0 && r > 0.0
    ensures Step(Belief(x, p), u, z, q, r) == StepRecord(xPred, pPred, k, Belief(xNew, pNew))
  {
    // Predict
    xPred := x + u;
    pPred := p + q;
    // Update
    k := pPred / (pPred + r);
    xNew := xPred + k * (z - xPred);
    pNew := (1.0 - k) * pPred;
  }

  /** The filter loop. Entry t of each history array is written at
      iteration t, so every entry is written exactly once and the arrays'
      initial contents never show; the belief (x, p) is carried from one
      iteration to the next. */
  method KalmanFilter1D(u: seq<real>, z: seq<real>,
                        x0: real := 0.0, p0: real := 1.0, q: real := 0.2, r: real := 2.0)
    returns (xEst: array<real>, pEst: array<real>, kHist: array<real>, xPredHist: array<real>)
    requires |z| <= |u|
    requires p0 >= 0.0 && q >= 0.0 && r > 0.0
    ensures fresh(xEst) && fresh(pEst) && fresh(kHist) && fresh(xPredHist)
    ensures xEst.Length == |z| && pEst.Length == |z| && kHist.Length == |z| && xPredHist.Length == |z|
    ensures var h := Trace(u, z, Params(x0, p0, q, r), |z|);
      forall t :: 0 <= t < |z| ==>
        xEst[t] == h[t].est.x && pEst[t] == h[t].est.p && kHist[t] == h[t].k && xPredHist[t] == h[t].xPred
  {
    var steps := |z|;
    xEst := new real[steps];
    pEst := new real[steps];
    kHist := new real[steps];
    xPredHist := new real[steps];
    ghost var c := Params(x0, p0, q, r);
    var x := x0;
    var p := p0;
    ghost var hist: seq<StepRecord> := [];
    for t := 0 to steps
      invariant hist == Trace(u, z, c, t)
      invariant Belief(x, p) == Latest(c, hist)
      invariant forall i :: 0 <= i < t ==>
        xEst[i] == hist[i].est.x && pEst[i] == hist[i].est.p && kHist[i] == hist[i].k && xPredHist[i] == hist[i].xPred
    {
      TraceStep(u, z, c, t);
      var xPred, pPred, k;
      xPred, pPred, k, x, p := PredictUpdate(x, p, u[t], z[t], q, r);
      ghost var rec := StepRecord(xPred, pPred, k, Belief(x, p));
      ghost var prev := hist;
      hist := hist + [rec];
      assert forall i :: 0 <= i < t ==> hist[i] == prev[i];
      assert hist[t] == rec;
      xEst[t] := x;
      pEst[t] := p;
      kHist[t] := k;
      xPredHist[t] := xPred;
    }
  }
}
