/** The thermal step (src/model.rs, `heat_temps`): coil into magnet into ambient, each a
    first-order lag, in sub-steps of at most MAX_SUB_DT, with an upper bound of the coil kept
    over every sub-step. */
module Thermal {
  import opened Config
  import opened Curves
  import opened Reals

  const MAX_SUB_DT := 0.01

  datatype Nodes = Nodes(coil: real, magnet: real)

  /** One sub-step's coefficients: the two lags' steps, the growth that undoes the coil's, the
      sub-step over the coil's time constant, and the plant. */
  datatype Kernel = Kernel(kMagnet: real, kCoil: real, grow: real, lam: real, trCoil: real, trMagnet: real, ta: real)

  ghost predicate Sound(k: Kernel) {
    && 0.0 < k.kMagnet < 1.0
    && 0.0 < k.kCoil < 1.0
    && (1.0 + k.grow) * (1.0 - k.kCoil) == 1.0
    && k.kCoil <= k.lam
    && k.trCoil > 0.0 && k.trMagnet > 0.0
  }

  function KernelOf(c: Curves, s: Spec, h: real, ta: real): Kernel
    requires s.tauCoil != 0.0 && s.tauMagnet != 0.0
  {
    Kernel(1.0 - c.decay(h / s.tauMagnet), 1.0 - c.decay(h / s.tauCoil), c.decay(-(h / s.tauCoil)) - 1.0,
           h / s.tauCoil, s.trCoil, s.trMagnet, ta)
  }

  lemma KernelSound(c: Curves, s: Spec, h: real, ta: real)
    requires Lawful(c) && ValidSpec(s) && h > 0.0
    ensures Sound(KernelOf(c, s, h, ta))
  {
    var x := h / s.tauCoil;
    DecayPositive(c, x);
    DecayPositive(c, h / s.tauMagnet);
    DecayInverse(c, x);
    DecayTangent(c, x);
  }

  // ---- one sub-step -------------------------------------------------------------------

  /** A first-order lag: `x` closes the share `k` of its gap to `target`. */
  function Lag(x: real, target: real, k: real): real {
    x + (target - x) * k
  }

  lemma LagDifference(x: real, y: real, s: real, t: real, k: real)
    ensures Lag(y, t, k) - Lag(x, s, k) == (1.0 - k) * (y - x) + k * (t - s)
  {}

  lemma LagMonotone(x: real, y: real, s: real, t: real, k: real)
    requires 0.0 < k < 1.0 && x <= y && s <= t
    ensures Lag(x, s, k) <= Lag(y, t, k)
  {
    LagDifference(x, y, s, t, k);
    Nonneg(1.0 - k, y - x);
    Nonneg(k, t - s);
  }

  function StepMagnet(k: Kernel, p: real, n: Nodes): real {
    Lag(n.magnet, k.ta + p * k.trMagnet, k.kMagnet)
  }

  function Step(k: Kernel, p: real, n: Nodes): Nodes {
    var m := StepMagnet(k, p, n);
    Nodes(Lag(n.coil, m + p * k.trCoil, k.kCoil), m)
  }

  /** How much hotter the sub-step can end with all of its energy at the very end. */
  function Late(k: Kernel, p: real): real {
    p * k.trCoil * Max(k.lam - k.kCoil, 0.0)
  }

  /** The coil's bound over the sub-step from `n`. */
  function Bound(k: Kernel, p: real, n: Nodes): real {
    var e := Step(k, p, n);
    var end := e.coil + Late(k, p);
    end + Max(end - e.magnet, 0.0) * k.grow
  }

  /** The rise a sub-step's whole energy would give at once. */
  function Burst(k: Kernel, p: real): real {
    p * (k.trCoil * k.lam)
  }

  /** The same, grown over the sub-step. */
  function Grown(k: Kernel, p: real): real {
    p * (k.trCoil * k.lam * (1.0 + k.grow))
  }

  /** The late end over the magnet is what is left of the start's gap plus the burst. */
  lemma LateEnd(k: Kernel, p: real, n: Nodes)
    requires k.kCoil <= k.lam
    ensures Step(k, p, n).coil + Late(k, p) - StepMagnet(k, p, n)
         == (n.coil - StepMagnet(k, p, n)) * (1.0 - k.kCoil) + Burst(k, p)
  {
    LateEndTerms(n.coil, StepMagnet(k, p, n), p, k.trCoil, k.lam, k.kCoil);
  }

  lemma LateEndTerms(c: real, m: real, p: real, tr: real, l: real, k: real)
    ensures Lag(c, m + p * tr, k) + p * tr * (l - k) - m == (c - m) * (1.0 - k) + p * (tr * l)
  {}

  lemma GrowTerms(x: real, b: real, tl: real, p: real, g: real, a: real)
    requires g * a == 1.0 && b == p * tl
    ensures (x * a + b) * g == x + p * (tl * g)
  {
    assert (x * a + b) * g == x * (g * a) + b * g;
  }

  lemma BelowInverse(a: real, g: real)
    requires 0.0 < a < 1.0 && g * a == 1.0
    ensures g > 1.0
  {
    assert g == 1.0 / a;
  }

  /** The bound in closed form: the later of the late end and all of the energy at once at the
      start, grown. In this form it is monotone in everything. */
  lemma BoundClosedForm(k: Kernel, p: real, n: Nodes)
    requires Sound(k)
    ensures Bound(k, p, n) == Max(Step(k, p, n).coil + Late(k, p), n.coil + Grown(k, p))
  {
    var m, end := StepMagnet(k, p, n), Step(k, p, n).coil + Late(k, p);
    LateEnd(k, p, n);
    GrownGap(k, p, n.coil - m);
    BelowInverse(1.0 - k.kCoil, 1.0 + k.grow);
    LargerOf(end, m, k.grow, n.coil + Grown(k, p));
  }

  lemma GrownGap(k: Kernel, p: real, x: real)
    requires (1.0 + k.grow) * (1.0 - k.kCoil) == 1.0
    ensures (x * (1.0 - k.kCoil) + Burst(k, p)) * (1.0 + k.grow) == x + Grown(k, p)
  {
    GrowTerms(x, Burst(k, p), k.trCoil * k.lam, p, 1.0 + k.grow, 1.0 - k.kCoil);
  }

  lemma LargerOf(end: real, m: real, grow: real, other: real)
    requires grow > 0.0 && (end - m) * (1.0 + grow) == other - m
    ensures end + Max(end - m, 0.0) * grow == Max(end, other)
  {
    var e := end - m;
    assert e * (1.0 + grow) == e + e * grow;
    if e >= 0.0 { Nonneg(e, grow); } else { Nonneg(-e, grow); }
  }

  predicate Below(x: Nodes, y: Nodes) {
    x.coil <= y.coil && x.magnet <= y.magnet
  }

  lemma PowerTerms(k: Kernel, p: real, q: real)
    requires Sound(k) && p <= q
    ensures p * k.trMagnet <= q * k.trMagnet && p * k.trCoil <= q * k.trCoil
    ensures Late(k, p) <= Late(k, q)
    ensures Grown(k, p) <= Grown(k, q)
  {
    ScaleOrder(k.trMagnet, p, q);
    ScaleOrder(k.trCoil, p, q);
    ScaleOrder(k.lam - k.kCoil, p * k.trCoil, q * k.trCoil);
    BelowInverse(1.0 - k.kCoil, 1.0 + k.grow);
    Nonneg(k.trCoil, k.lam);
    Nonneg(k.trCoil * k.lam, 1.0 + k.grow);
    ScaleOrder(k.trCoil * k.lam * (1.0 + k.grow), p, q);
  }

  lemma LagPower(x: real, y: real, a: real, b: real, p: real, q: real, tr: real, k: real)
    requires 0.0 < k < 1.0 && tr > 0.0 && p <= q && x <= y && a <= b
    ensures Lag(x, a + p * tr, k) <= Lag(y, b + q * tr, k)
  {
    ScaleOrder(tr, p, q);
    var s, t := a + p * tr, b + q * tr;
    LagMonotone(x, y, s, t, k);
  }

  lemma MagnetMonotone(k: Kernel, p: real, q: real, x: Nodes, y: Nodes)
    requires 0.0 < k.kMagnet < 1.0 && k.trMagnet > 0.0 && p <= q && x.magnet <= y.magnet
    ensures StepMagnet(k, p, x) <= StepMagnet(k, q, y)
  {
    LagPower(x.magnet, y.magnet, k.ta, k.ta, p, q, k.trMagnet, k.kMagnet);
  }

  lemma CoilMonotone(k: Kernel, p: real, q: real, x: Nodes, y: Nodes)
    requires 0.0 < k.kCoil < 1.0 && k.trCoil > 0.0 && p <= q && x.coil <= y.coil
    requires StepMagnet(k, p, x) <= StepMagnet(k, q, y)
    ensures Step(k, p, x).coil <= Step(k, q, y).coil
  {
    hide StepMagnet;
    LagPower(x.coil, y.coil, StepMagnet(k, p, x), StepMagnet(k, q, y), p, q, k.trCoil, k.kCoil);
  }

  lemma NodesMonotone(k: Kernel, p: real, q: real, x: Nodes, y: Nodes)
    requires Sound(k) && p <= q && Below(x, y)
    ensures Below(Step(k, p, x), Step(k, q, y))
  {
    MagnetMonotone(k, p, q, x, y);
    CoilMonotone(k, p, q, x, y);
  }

  lemma LargerMonotone(a: real, b: real, c: real, d: real)
    requires a <= b && c <= d
    ensures Max(a, c) <= Max(b, d)
  {}

  /** A hotter start or more power never leaves a cooler end or a lower bound. */
  lemma StepMonotone(k: Kernel, p: real, q: real, x: Nodes, y: Nodes)
    requires Sound(k) && p <= q && Below(x, y)
    ensures Below(Step(k, p, x), Step(k, q, y))
    ensures Bound(k, p, x) <= Bound(k, q, y)
  {
    NodesMonotone(k, p, q, x, y);
    assert Bound(k, p, x) <= Bound(k, q, y) by {
      PowerTerms(k, p, q);
      BoundClosedForm(k, p, x);
      BoundClosedForm(k, q, y);
      LargerMonotone(Step(k, p, x).coil + Late(k, p), Step(k, q, y).coil + Late(k, q),
                     x.coil + Grown(k, p), y.coil + Grown(k, q));
    }
  }

  /** The bound covers both ends of its own sub-step. */
  lemma BoundCoversEnd(k: Kernel, p: real, n: Nodes)
    requires Sound(k) && p >= 0.0
    ensures Step(k, p, n).coil <= Bound(k, p, n)
    ensures n.coil <= Bound(k, p, n)
  {
    BoundClosedForm(k, p, n);
    PowerTerms(k, 0.0, p);
  }

  // ---- a run of sub-steps -------------------------------------------------------------------

  /** A sub-step and the power it got. */
  datatype Beat = Beat(k: Kernel, watts: real)

  ghost predicate SoundBeats(bs: seq<Beat>) {
    forall i :: 0 <= i < |bs| ==> Sound(bs[i].k)
  }

  /** The nodes after the sub-steps, in order. */
  function Run(bs: seq<Beat>, n: Nodes): Nodes {
    if bs == [] then n
    else
      var b := bs[|bs| - 1];
      Step(b.k, b.watts, Run(bs[..|bs| - 1], n))
  }

  /** The highest of the sub-steps' bounds. */
  function Peak(bs: seq<Beat>, n: Nodes): real
    requires bs != []
  {
    var front, b := bs[..|bs| - 1], bs[|bs| - 1];
    var bound := Bound(b.k, b.watts, Run(front, n));
    if front == [] then bound else Max(Peak(front, n), bound)
  }

  function Const(k: Kernel, n: nat, p: real): (bs: seq<Beat>)
    ensures |bs| == n && forall i :: 0 <= i < n ==> bs[i] == Beat(k, p)
  {
    seq(n, i => Beat(k, p))
  }

  /** Whole sub-steps of at most MAX_SUB_DT, at least one. */
  function SubSteps(dt: real): (n: nat)
    requires dt > 0.0
    ensures n >= 1 && dt / n as real <= MAX_SUB_DT
    ensures n == 1 || dt > MAX_SUB_DT * (n - 1) as real
  {
    var n := -((-(dt / MAX_SUB_DT)).Floor);
    assert n >= 1;
    assert dt / n as real <= MAX_SUB_DT by {
      assert dt / MAX_SUB_DT <= n as real;
      assert dt <= MAX_SUB_DT * n as real;
      DivideOrder(dt, MAX_SUB_DT, n as real);
    }
    n
  }

  function HeatNodes(c: Curves, s: Spec, n: Nodes, power: real, dt: real, ta: real): Nodes
    requires ValidSpec(s) && dt > 0.0
  {
    var m := SubSteps(dt);
    Run(Const(KernelOf(c, s, dt / m as real, ta), m, power), n)
  }

  function HeatPeak(c: Curves, s: Spec, n: Nodes, power: real, dt: real, ta: real): real
    requires ValidSpec(s) && dt > 0.0
  {
    var m := SubSteps(dt);
    Peak(Const(KernelOf(c, s, dt / m as real, ta), m, power), n)
  }

  /** The program's loop. */
  method HeatTemps(c: Curves, s: Spec, start: Nodes, power: real, dt: real, ta: real) returns (end: Nodes, peak: real)
    requires ValidSpec(s) && dt > 0.0
    ensures end == HeatNodes(c, s, start, power, dt, ta)
    ensures peak == HeatPeak(c, s, start, power, dt, ta)
  {
    var n := SubSteps(dt);
    end, peak := HeatLoop(KernelOf(c, s, dt / n as real, ta), n, start, power);
  }

  lemma RunOneMore(k: Kernel, i: nat, p: real, n: Nodes)
    ensures Run(Const(k, i + 1, p), n) == Step(k, p, Run(Const(k, i, p), n))
    ensures var b := Bound(k, p, Run(Const(k, i, p), n));
      Peak(Const(k, i + 1, p), n) == if i == 0 then b else Max(Peak(Const(k, i, p), n), b)
  {
    assert Const(k, i + 1, p)[..i] == Const(k, i, p);
  }

  /** The loop's body. */
  method SubStep(k: Kernel, power: real, late: real, tc: real, tm: real) returns (coil: real, magnet: real, bound: real)
    requires late == Late(k, power)
    ensures Nodes(coil, magnet) == Step(k, power, Nodes(tc, tm))
    ensures bound == Bound(k, power, Nodes(tc, tm))
  {
    magnet := Lag(tm, k.ta + power * k.trMagnet, k.kMagnet);
    coil := Lag(tc, magnet + power * k.trCoil, k.kCoil);
    var end := coil + late;
    bound := end + Max(end - magnet, 0.0) * k.grow;
  }

  method HeatLoop(k: Kernel, n: nat, start: Nodes, power: real) returns (end: Nodes, peak: real)
    requires n > 0
    ensures end == Run(Const(k, n, power), start)
    ensures peak == Peak(Const(k, n, power), start)
  {
    var late := Late(k, power);
    var tc, tm := start.coil, start.magnet;
    peak := 0.0;
    var i := 0;
    while i < n
      invariant 0 <= i <= n
      invariant Nodes(tc, tm) == Run(Const(k, i, power), start)
      invariant i > 0 ==> peak == Peak(Const(k, i, power), start)
    {
      RunOneMore(k, i, power, start);
      var bound;
      tc, tm, bound := SubStep(k, power, late, tc, tm);
      if i == 0 || !(bound <= peak) {
        peak := bound;
      }
      i := i + 1;
    }
    end := Nodes(tc, tm);
  }

  // ---- the loop as a monotone simulation ----------------------------------------------------

  /** The same sub-steps, each with at most the other's power. */
  predicate AtMost(bs: seq<Beat>, cs: seq<Beat>) {
    |bs| == |cs| && forall i :: 0 <= i < |bs| ==> bs[i].k == cs[i].k && bs[i].watts <= cs[i].watts
  }

  /** Over any run: a start no hotter and no more power in any sub-step leave both nodes no
      hotter, and the bound no higher. */
  lemma {:induction false} RunMonotone(bs: seq<Beat>, cs: seq<Beat>, x: Nodes, y: Nodes)
    requires SoundBeats(bs) && AtMost(bs, cs) && Below(x, y)
    ensures Below(Run(bs, x), Run(cs, y))
    ensures bs != [] ==> Peak(bs, x) <= Peak(cs, y)
  {
    if bs != [] {
      var i := |bs| - 1;
      RunMonotone(bs[..i], cs[..i], x, y);
      StepMonotone(bs[i].k, bs[i].watts, cs[i].watts, Run(bs[..i], x), Run(cs[..i], y));
    }
  }

  /** The peak is over every moment the run passes through. */
  lemma {:induction false} PeakCovers(bs: seq<Beat>, n: Nodes, i: nat)
    requires SoundBeats(bs) && i <= |bs| && bs != []
    requires forall j :: 0 <= j < |bs| ==> bs[j].watts >= 0.0
    ensures Run(bs[..i], n).coil <= Peak(bs, n)
    ensures i < |bs| ==> Bound(bs[i].k, bs[i].watts, Run(bs[..i], n)) <= Peak(bs, n)
    decreases |bs|
  {
    var l := |bs| - 1;
    BoundCoversEnd(bs[l].k, bs[l].watts, Run(bs[..l], n));
    if i == |bs| {
      assert bs[..i] == bs;
    } else if i < l {
      PeakCovers(bs[..l], n, i);
      assert bs[..l][..i] == bs[..i];
    }
  }

  lemma {:induction false} RunAppend(bs: seq<Beat>, cs: seq<Beat>, n: Nodes)
    ensures Run(bs + cs, n) == Run(cs, Run(bs, n))
  {
    if cs == [] {
      assert bs + cs == bs;
    } else {
      var l := |cs| - 1;
      RunAppend(bs, cs[..l], n);
      assert (bs + cs)[..|bs + cs| - 1] == bs + cs[..l];
    }
  }
}
