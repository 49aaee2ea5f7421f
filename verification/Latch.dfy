/** The start from an unknown past (src/model.rs, `assume_latched`): both nodes at the limit,
    then a drain at full scale, and exactly when that is hotter than every such past. */
module Latch {
  import opened Config
  import opened Curves
  import opened Reals
  import opened Thermal
  import opened Drains

  const DRAIN_S := 0.5

  function AtLimit(s: Spec): Nodes {
    Nodes(s.tLimit, s.tLimit)
  }

  /** The peak of the limit and the drain: the latched coil. */
  function LatchedPeak(c: Curves, s: Spec, full: real, ta: real): real
    requires ValidSpec(s)
  {
    Max(s.tLimit, HeatPeak(c, s, AtLimit(s), full, DRAIN_S, ta))
  }

  function Latched(c: Curves, s: Spec, full: real, ta: real): Nodes
    requires ValidSpec(s)
  {
    Nodes(LatchedPeak(c, s, full, ta), HeatNodes(c, s, AtLimit(s), full, DRAIN_S, ta).magnet)
  }

  const DRAIN_STEPS := 50

  lemma DrainIsFiftySteps()
    ensures SubSteps(DRAIN_S) == DRAIN_STEPS && DRAIN_S / DRAIN_STEPS as real == MAX_SUB_DT
  {
    assert DRAIN_S / MAX_SUB_DT == 50.0;
    assert (-50.0).Floor == -50;
  }

  /** A past this start must cover: both nodes at or under the limit, then up to DRAIN_S of a drain in
      sub-steps of any lengths up to MAX_SUB_DT, each with anything up to full scale. */
  ghost predicate Past(s: Spec, full: real, n: Nodes, drain: seq<Slice>)
    requires ValidSpec(s)
  {
    Below(n, AtLimit(s)) && CutWithin(full, drain) && Lasts(drain) <= DRAIN_S
  }

  /** The start is no cooler than any such past, and stays so over any later run in which every
      sub-step is charged at least what really came. */
  ghost predicate CoversEveryPast(c: Curves, s: Spec, full: real, ta: real)
    requires ValidSpec(s)
  {
    forall n, drain, later, charged ::
      Past(s, full, n, drain) && SoundBeats(later) && AtMost(later, charged)
      ==> Below(Run(later, Run(Beats(c, s, ta, drain), n)), Run(charged, Latched(c, s, full, ta)))
  }

  lemma LagFalls(x: real, t: real, k: real)
    requires 0.0 < k < 1.0 && x > t
    ensures t < Lag(x, t, k) < x
  {
    var d, e := x - t, 1.0 - k;
    Positive(d, k);
    Positive(d, e);
    assert x - Lag(x, t, k) == d * k && Lag(x, t, k) - t == d * e;
  }

  /** Where the magnet settles at a constant power. */
  function Steady(k: Kernel, p: real): real {
    k.ta + p * k.trMagnet
  }

  function MagnetAt(k: Kernel, p: real, n: Nodes, i: nat): real {
    Run(Const(k, i, p), n).magnet
  }

  lemma MagnetStep(k: Kernel, p: real, n: Nodes, i: nat)
    ensures MagnetAt(k, p, n, i + 1) == Lag(MagnetAt(k, p, n, i), Steady(k, p), k.kMagnet)
    ensures MagnetAt(k, p, n, 0) == n.magnet
  {
    RunOneMore(k, i, p, n);
  }

  /** Under its steady state the magnet only rises, over it it only falls. */
  lemma {:induction false} MagnetRises(k: Kernel, p: real, n: Nodes, i: nat, j: nat)
    requires 0.0 < k.kMagnet < 1.0 && i <= j && n.magnet <= Steady(k, p)
    ensures MagnetAt(k, p, n, i) <= MagnetAt(k, p, n, j) <= Steady(k, p)
    decreases j
  {
    MagnetStep(k, p, n, 0);
    if j > 0 {
      MagnetRises(k, p, n, if i < j then i else i - 1, j - 1);
      MagnetStep(k, p, n, j - 1);
      LagRises(MagnetAt(k, p, n, j - 1), Steady(k, p), k.kMagnet);
    }
  }

  lemma {:induction false} MagnetFalls(k: Kernel, p: real, n: Nodes, j: nat)
    requires 0.0 < k.kMagnet < 1.0 && n.magnet > Steady(k, p)
    ensures Steady(k, p) < MagnetAt(k, p, n, j) <= n.magnet
    ensures j > 0 ==> MagnetAt(k, p, n, j) < n.magnet
  {
    MagnetStep(k, p, n, 0);
    if j > 0 {
      MagnetFalls(k, p, n, j - 1);
      MagnetStep(k, p, n, j - 1);
      LagFalls(MagnetAt(k, p, n, j - 1), Steady(k, p), k.kMagnet);
    }
  }

  lemma LatchedIs(c: Curves, s: Spec, full: real, ta: real)
    requires ValidSpec(s)
    ensures var k := WholeKernel(c, s, ta);
      && Latched(c, s, full, ta).magnet == MagnetAt(k, full, AtLimit(s), DRAIN_STEPS)
      && Latched(c, s, full, ta).coil == Max(s.tLimit, Peak(Const(k, DRAIN_STEPS, full), AtLimit(s)))
  {
    DrainIsFiftySteps();
  }

  lemma PastCoilIsCovered(k: Kernel, full: real, n: Nodes, m: nat)
    requires Sound(k) && full >= 0.0 && m <= DRAIN_STEPS
    ensures Run(Const(k, m, full), n).coil <= Peak(Const(k, DRAIN_STEPS, full), n)
  {
    PeakCovers(Const(k, DRAIN_STEPS, full), n, m);
    assert Const(k, DRAIN_STEPS, full)[..m] == Const(k, m, full);
  }

  lemma LatchedMagnetIsAbove(c: Curves, s: Spec, full: real, ta: real, m: nat)
    requires Lawful(c) && ValidSpec(s) && s.tLimit <= Steady(WholeKernel(c, s, ta), full) && m <= DRAIN_STEPS
    ensures MagnetAt(WholeKernel(c, s, ta), full, AtLimit(s), m) <= Latched(c, s, full, ta).magnet
  {
    assert 0.0 < WholeKernel(c, s, ta).kMagnet < 1.0 by { KernelSound(c, s, MAX_SUB_DT, ta); }
    LatchedIs(c, s, full, ta);
    MagnetRises(WholeKernel(c, s, ta), full, AtLimit(s), m, DRAIN_STEPS);
  }

  lemma LatchedCoilIsAbove(c: Curves, s: Spec, full: real, ta: real, m: nat)
    requires Lawful(c) && ValidSpec(s) && full >= 0.0 && m <= DRAIN_STEPS
    ensures Run(Const(WholeKernel(c, s, ta), m, full), AtLimit(s)).coil <= Latched(c, s, full, ta).coil
  {
    KernelSound(c, s, MAX_SUB_DT, ta);
    LatchedIs(c, s, full, ta);
    PastCoilIsCovered(WholeKernel(c, s, ta), full, AtLimit(s), m);
  }

  lemma PastIsCovered(c: Curves, s: Spec, full: real, ta: real, n: Nodes, drain: seq<Slice>)
    requires Lawful(c) && ValidSpec(s) && full >= 0.0 && s.tLimit <= Steady(WholeKernel(c, s, ta), full)
    requires Past(s, full, n, drain)
    ensures Below(Run(Beats(c, s, ta, drain), n), Latched(c, s, full, ta))
  {
    Nonneg(full, s.trCoil);
    assert Heating(s, ta, full, AtLimit(s));
    DrainIsFiftySteps();
    hide Beats, Run, Heating, Latched, KernelOf;
    var m := CutIsBelow(c, s, ta, full, drain, DRAIN_STEPS, n, AtLimit(s));
    LatchedMagnetIsAbove(c, s, full, ta, m);
    LatchedCoilIsAbove(c, s, full, ta, m);
  }

  /** The latched start covers every past if and only if the limit is no hotter than the magnet
      a full-scale signal would settle at: a caller can check it from the configuration. */
  lemma LatchedCoversIff(c: Curves, s: Spec, full: real, ta: real)
    requires Lawful(c) && ValidSpec(s) && full >= 0.0
    ensures CoversEveryPast(c, s, full, ta) <==> s.tLimit <= ta + full * s.trMagnet
  {
    assert Steady(WholeKernel(c, s, ta), full) == ta + full * s.trMagnet;
    if s.tLimit <= ta + full * s.trMagnet {
      CoversAll(c, s, full, ta);
    } else {
      LatchedFalls(c, s, full, ta);
      NotCovered(c, s, full, ta);
    }
  }

  lemma CoversAll(c: Curves, s: Spec, full: real, ta: real)
    requires Lawful(c) && ValidSpec(s) && full >= 0.0 && s.tLimit <= Steady(WholeKernel(c, s, ta), full)
    ensures CoversEveryPast(c, s, full, ta)
  {
    forall n, drain, later, charged |
      Past(s, full, n, drain) && SoundBeats(later) && AtMost(later, charged)
      ensures Below(Run(later, Run(Beats(c, s, ta, drain), n)), Run(charged, Latched(c, s, full, ta)))
    {
      PastIsCovered(c, s, full, ta, n, drain);
      RunMonotone(later, charged, Run(Beats(c, s, ta, drain), n), Latched(c, s, full, ta));
    }
  }

  lemma LatchedFalls(c: Curves, s: Spec, full: real, ta: real)
    requires Lawful(c) && ValidSpec(s) && s.tLimit > Steady(WholeKernel(c, s, ta), full)
    ensures Latched(c, s, full, ta).magnet < s.tLimit
  {
    assert 0.0 < WholeKernel(c, s, ta).kMagnet < 1.0 by { KernelSound(c, s, MAX_SUB_DT, ta); }
    LatchedIs(c, s, full, ta);
    MagnetFalls(WholeKernel(c, s, ta), full, AtLimit(s), DRAIN_STEPS);
  }

  /** The past that shows it: both nodes at the limit, and nothing since. */
  lemma NotCovered(c: Curves, s: Spec, full: real, ta: real)
    requires ValidSpec(s) && Latched(c, s, full, ta).magnet < s.tLimit
    ensures !CoversEveryPast(c, s, full, ta)
  {
    assert Past(s, full, AtLimit(s), []);
    assert SoundBeats([]) && AtMost([], []);
    assert !Below(Run([], Run(Beats(c, s, ta, []), AtLimit(s))), Run([], Latched(c, s, full, ta)));
  }

  /** More power never has a lower peak: what a bisection over the reduction relies on. */
  lemma HeatPeakMonotone(c: Curves, s: Spec, n: Nodes, p: real, q: real, dt: real, ta: real)
    requires Lawful(c) && ValidSpec(s) && dt > 0.0 && p <= q
    ensures HeatPeak(c, s, n, p, dt, ta) <= HeatPeak(c, s, n, q, dt, ta)
  {
    var m := SubSteps(dt);
    var h := dt / m as real;
    QuotientPositive(dt, m as real);
    KernelSound(c, s, h, ta);
    var k := KernelOf(c, s, h, ta);
    RunMonotone(Const(k, m, p), Const(k, m, q), n, n);
  }
}
