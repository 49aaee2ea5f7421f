/** Where the thermal step's bound falls short over a run (src/model.rs, `heat_temps`): the model's
    coil does not keep what energy late in a sub-step leaves behind, so enough late sub-steps and then
    an early one take the coil over the bound of that sub-step, and over the limit without a fault. */
module LateEnergy {
  import opened Config
  import opened Curves
  import opened Reals
  import opened Thermal
  import opened SpreadEnergy
  import opened WorstSpread
  import Inversion

  /** A driver of 100 W full scale, but for its limit. */
  function Driver(limit: real): Spec {
    Spec("", 1.0, 1.0, 1.0, 1000.0, limit, 0.0, 1.0, 10.0, 0, 0.0, 0.0)
  }

  /** The globals it is run under. */
  const GLOBALS := Globals(0.0, 0.0, 0.01, 12.0, 20.0, 1, 1)

  const FULL := 100.0
  const H := 0.01
  const START := Nodes(0.02, 0.0)

  /** A sub-step charged at one watt: its energy lasts a tenth of a millisecond at full scale. */
  const SLOT := Sub(H, 1.0, GLOBALS.tAmbient, [])
  const BURST := 0.0001

  function Slots(n: nat): (bs: seq<Sub>)
    ensures |bs| == n && forall i :: 0 <= i < n ==> bs[i] == SLOT
  {
    seq(n, i => SLOT)
  }

  lemma SlotsArePlayable(limit: real, n: nat)
    ensures ValidSpec(Driver(limit)) && Inversion.FullScale(Driver(limit)) == FULL
    ensures Playable(FULL, Slots(n)) && AtFull(FULL, SLOT) == BURST
  {}

  /** What e^-x is over the sub-step and over the burst. */
  lemma Factors(c: Curves, limit: real) returns (a: real, f: real)
    requires Lawful(c)
    ensures a == Share(c, Driver(limit), H) == c.decay(H) && f == Share(c, Driver(limit), BURST)
    ensures 0.990025 <= a < 1.0 && 0.009999 <= 100.0 * (1.0 - f) <= 0.01
  {
    a, f := c.decay(H), c.decay(BURST);
    assert H / 1.0 == H && BURST / 1.0 == BURST;
    DecayPositive(c, H);
    HalfStep(c);
    DecayTangent(c, BURST);
    DecayTangent(c, -BURST);
    DecayInverse(c, BURST);
    Shrinks(c.decay(-BURST), f);
  }

  lemma Shrinks(g: real, f: real)
    requires g * f == 1.0 && g >= 1.0 + BURST && f >= 1.0 - BURST
    ensures BURST * (1.0 - BURST) <= 1.0 - f
  {
    Nonneg(g - 1.0 - BURST, f);
    assert (g - 1.0 - BURST) * f == 1.0 - f - BURST * f;
  }

  lemma HalfStep(c: Curves)
    requires Lawful(c)
    ensures c.decay(H) >= 0.990025
  {
    DecayAdd(c, 0.005, 0.005);
    assert 0.005 + 0.005 == H;
    DecayTangent(c, 0.005);
    var f := c.decay(0.005);
    ScaleOrder(f, 0.995, f);
    ScaleOrder(0.995, 0.995, f);
  }

  /** How far the late run is over the model after `i` sub-steps, at least. */
  function Lead(i: nat): real {
    if i == 0 then 0.0 else 0.990025 * Lead(i - 1) + 0.000024
  }

  lemma OverNonneg(i: nat)
    ensures Lead(i) >= 0.0
  {}

  const RUN := 8

  lemma OverEight()
    ensures Lead(RUN) >= 0.00018
  {
    assert Lead(4) >= 0.000094 by { assert Lead(2) >= 0.000047; }
    assert Lead(6) >= 0.00014;
  }

  /** The model and the late run after `i` sub-steps. */
  predicate Ahead(n: Nodes, x: real, i: nat) {
    && 0.0 <= n.magnet <= 0.00001 * i as real
    && 0.02 <= n.coil && n.coil + Lead(i) <= x <= 0.02 + 0.01 * i as real
  }

  lemma LateRises(m: real, n: real, d: real, a: real, f: real, over: real)
    requires 0.990025 <= a < 1.0 && 0.009999 <= 100.0 * (1.0 - f) <= 0.01 && 0.0 <= m && 0.0 <= over <= d
    requires m <= n <= 1.0
    ensures n <= Lag(n, m + 1.0, 1.0 - a)
    ensures Lag(n, m + 1.0, 1.0 - a) + 0.990025 * over + 0.000024 <= m + Blend(n + d - m, 100.0, a, f)
    ensures m + Blend(n + d - m, 100.0, a, f) <= n + d + 0.01
  {
    LateGains(m, n, d, a, f, over);
    Nonneg(d, 1.0 - a);
    Nonneg(n - m, 1.0 - a);
    Nonneg(m + 1.0 - n, 1.0 - a);
    LateTermsAre(m, n, d, a, f);
    hide Lag, Blend;
  }

  lemma LateGains(m: real, n: real, d: real, a: real, f: real, over: real)
    requires 0.990025 <= a < 1.0 && 0.009999 <= 100.0 * (1.0 - f) && 0.0 <= over <= d
    ensures Lag(n, m + 1.0, 1.0 - a) + 0.990025 * over + 0.000024 <= m + Blend(n + d - m, 100.0, a, f)
  {
    ScaleOrder(d, 0.990025, a);
    LateTermsAre(m, n, d, a, f);
    hide Lag, Blend;
    assert 0.990025 * over <= 0.990025 * d;
    assert 100.0 * (1.0 - f) - (1.0 - a) >= 0.000024;
  }

  lemma LateTermsAre(m: real, n: real, d: real, a: real, f: real)
    ensures m + Blend(n + d - m, 100.0, a, f) == Lag(n, m + 1.0, 1.0 - a) + d * a - (1.0 - a) + 100.0 * (1.0 - f)
    ensures m + Blend(n + d - m, 100.0, a, f)
         == n + d - (n - m) * (1.0 - a) - d * (1.0 - a) + 100.0 * (1.0 - f)
    ensures Lag(n, m + 1.0, 1.0 - a) == n + (m + 1.0 - n) * (1.0 - a)
  {}

  lemma MagnetRises(m: real, k: real)
    requires 0.0 <= m <= 1.0 && 0.0 < k <= 0.00001
    ensures 0.0 <= m <= Lag(m, 0.0 + 1.0 * 1.0, k) <= m + 0.00001
  {
    Nonneg(1.0 - m, k);
    Nonneg(m, k);
    assert Lag(m, 1.0, k) == m + (1.0 - m) * k && (1.0 - m) * k == k - m * k;
  }

  /** What the driver's kernel is. */
  lemma KernelIs(c: Curves, limit: real) returns (k: Kernel, a: real, f: real)
    requires Lawful(c)
    ensures k == KernelOf(c, Driver(limit), H, 0.0) && Sound(k)
    ensures k.kCoil == 1.0 - a && 0.0 < k.kMagnet <= 0.00001 && k.lam == H
    ensures k.ta == 0.0 && k.trMagnet == 1.0 && k.trCoil == 1.0
    ensures a == Share(c, Driver(limit), H) && f == Share(c, Driver(limit), BURST)
    ensures 0.990025 <= a < 1.0 && 0.009999 <= 100.0 * (1.0 - f) <= 0.01
  {
    k := KernelOf(c, Driver(limit), H, 0.0);
    SlotsArePlayable(limit, 0);
    KernelSound(c, Driver(limit), H, 0.0);
    a, f := Factors(c, limit);
    DecayTangent(c, H / 1000.0);
  }

  lemma OneSlot(c: Curves, limit: real, n: Nodes, x: real, i: nat) returns (next: Nodes)
    requires Lawful(c) && i <= RUN && Ahead(n, x, i)
    ensures ValidSpec(Driver(limit)) && next == Step(KernelOf(c, Driver(limit), H, 0.0), 1.0, n)
    ensures Ahead(next, LateAfter(c, Driver(limit), FULL, SLOT, next.magnet, x), i + 1)
    ensures n.coil <= next.coil
  {
    hide Blend, Share, AtFull, LateAfter;
    SlotsArePlayable(limit, 0);
    OverNonneg(i);
    var k, a, f := KernelIs(c, limit);
    hide Sound, KernelOf;
    MagnetRises(n.magnet, k.kMagnet);
    next := Step(k, 1.0, n);
    assert next.magnet == Lag(n.magnet, 1.0, k.kMagnet);
    SlotEnds(c, limit, next.magnet, x, a, f);
    assert next.coil == Lag(n.coil, next.magnet + 1.0, 1.0 - a);
    hide Lag, Step, StepMagnet;
    LateRises(next.magnet, n.coil, x - n.coil, a, f, Lead(i));
  }

  /** The late and the early end of a sub-step, in its factors. */
  lemma SlotEnds(c: Curves, limit: real, m: real, x: real, a: real, f: real)
    requires a == Share(c, Driver(limit), H) && f == Share(c, Driver(limit), BURST)
    ensures ValidSpec(Driver(limit))
    ensures LateAfter(c, Driver(limit), FULL, SLOT, m, x) == m + Blend(x - m, 100.0, a, f)
    ensures EarlyAfter(c, Driver(limit), FULL, SLOT, m, x) == m + Blend(x - m, 100.0, f, f)
  {
    SlotsArePlayable(limit, 0);
    hide Blend, Share, AtFull;
    assert Top(Driver(limit), FULL) == 100.0;
  }

  lemma {:induction false} AfterSlots(c: Curves, limit: real, i: nat)
    requires Lawful(c) && i <= RUN + 1
    ensures ValidSpec(Driver(limit))
    ensures Ahead(Model(c, Driver(limit), Slots(i), START), LateRun(c, Driver(limit), FULL, Slots(i), START), i)
    ensures i > 0 ==> Model(c, Driver(limit), Slots(i - 1), START).coil <= Model(c, Driver(limit), Slots(i), START).coil
  {
    SlotsArePlayable(limit, i);
    if i > 0 {
      AfterSlots(c, limit, i - 1);
      assert Slots(i)[..i - 1] == Slots(i - 1);
      var next := OneSlot(c, limit, Model(c, Driver(limit), Slots(i - 1), START),
                          LateRun(c, Driver(limit), FULL, Slots(i - 1), START), i - 1);
      LastOf(c, Driver(limit), FULL, Slots(i), START);
      RunEnds(c, Driver(limit), Slots(i), START, START);
    }
  }

  /** The model only rises over them. */
  lemma {:induction false} ModelRises(c: Curves, limit: real, i: nat, j: nat)
    requires Lawful(c) && i <= j <= RUN + 1
    ensures ValidSpec(Driver(limit))
    ensures Model(c, Driver(limit), Slots(i), START).coil <= Model(c, Driver(limit), Slots(j), START).coil
    decreases j
  {
    SlotsArePlayable(limit, i);
    hide Model, LateRun, Ahead;
    if i < j {
      ModelRises(c, limit, i, j - 1);
      AfterSlots(c, limit, j);
    }
  }

  /** The bound of a sub-step, in numbers. */
  lemma BoundIsLow(c: Curves, limit: real, n: Nodes)
    requires Lawful(c) && 0.0 <= n.magnet <= 0.01 && n.coil >= 0.02
    ensures Bound(KernelOf(c, Driver(limit), H, 0.0), 1.0, n) <= n.coil + 0.010101
  {
    var k, a, f := KernelIs(c, limit);
    BoundClosedForm(k, 1.0, n);
    LateEnd(k, 1.0, n);
    MagnetRises(n.magnet, k.kMagnet);
    var m := StepMagnet(k, 1.0, n);
    assert m == Lag(n.magnet, 1.0, k.kMagnet);
    assert Burst(k, 1.0) == 0.01 && Grown(k, 1.0) == 0.01 * (1.0 + k.grow);
    GrowIsLow(1.0 + k.grow, a);
    Nonneg(n.coil - m, k.kCoil);
    assert (n.coil - m) * (1.0 - k.kCoil) == (n.coil - m) - (n.coil - m) * k.kCoil;
  }

  lemma GrowIsLow(g: real, a: real)
    requires g * a == 1.0 && a >= 0.990025
    ensures g <= 1.0101
  {
    Unscale(a, g, 1.0101);
  }

  lemma EarlyJumps(m: real, x: real, f: real)
    requires 0.009999 <= 100.0 * (1.0 - f) <= 0.01 && 0.0 <= x - m <= 0.1
    ensures m + Blend(x - m, 100.0, f, f) >= x + 0.009989
  {
    var d, k := x - m, 1.0 - f;
    ScaleOrder(d, k, 0.0001);
    assert d * k <= 0.00001;
    assert m + (x - m) * f == x - d * k;
    assert Blend(x - m, 100.0, f, f) == (x - m) * f + 100.0 * (1.0 - f);
  }

  /** The early peak after eight late sub-steps is over the bound of all nine. */
  lemma EarlyIsOver(c: Curves, limit: real, i: nat)
    requires Lawful(c) && i <= RUN
    ensures ValidSpec(Driver(limit))
    ensures Bounds(c, Driver(limit), Slots(RUN + 1), START)[i]
          < EarlyPeak(c, Driver(limit), FULL, Slots(RUN + 1), START, RUN)
    ensures EarlyPeak(c, Driver(limit), FULL, Slots(RUN + 1), START, RUN) > 0.02
  {
    SlotsArePlayable(limit, RUN + 1);
    hide Model, LateRun, Bound, Bounds, KernelOf, Blend, EarlyAfter, Share, Lead;
    AfterSlots(c, limit, RUN);
    AfterSlots(c, limit, RUN + 1);
    ModelRises(c, limit, i, RUN);
    BoundsAre(c, limit, i);
    OverEight();
    var k, a, f := KernelIs(c, limit);
    var s, bs := Driver(limit), Slots(RUN + 1);
    assert bs[..RUN] == Slots(RUN) && bs[..RUN + 1] == bs;
    var x, m := LateRun(c, s, FULL, Slots(RUN), START), Model(c, s, bs, START).magnet;
    SlotEnds(c, limit, m, x, a, f);
    EarlyJumps(m, x, f);
  }

  lemma BoundsAre(c: Curves, limit: real, i: nat)
    requires Lawful(c) && i <= RUN
    ensures ValidSpec(Driver(limit))
    ensures Bounds(c, Driver(limit), Slots(RUN + 1), START)[i]
         <= Model(c, Driver(limit), Slots(i), START).coil + 0.010101
  {
    SlotsArePlayable(limit, RUN + 1);
    hide Model, LateRun, Bound, KernelOf;
    AfterSlots(c, limit, i);
    assert Slots(RUN + 1)[..i] == Slots(i);
    BoundIsLow(c, limit, Model(c, Driver(limit), Slots(i), START));
  }

  // ---- the limit is nowhere else in the account -----------------------------------------------

  lemma {:induction false} ModelHasNoLimit(c: Curves, x: real, y: real, bs: seq<Sub>, n: Nodes)
    ensures ValidSpec(Driver(x)) && ValidSpec(Driver(y))
    ensures Model(c, Driver(x), bs, n) == Model(c, Driver(y), bs, n)
    ensures LateRun(c, Driver(x), FULL, bs, n) == LateRun(c, Driver(y), FULL, bs, n)
  {
    if bs != [] {
      ModelHasNoLimit(c, x, y, bs[..|bs| - 1], n);
    }
  }

  lemma PeakHasNoLimit(c: Curves, x: real, y: real)
    ensures ValidSpec(Driver(x)) && ValidSpec(Driver(y))
    ensures EarlyPeak(c, Driver(x), FULL, Slots(RUN + 1), START, RUN)
         == EarlyPeak(c, Driver(y), FULL, Slots(RUN + 1), START, RUN)
  {
    var bs := Slots(RUN + 1);
    ModelHasNoLimit(c, x, y, bs[..RUN + 1], START);
    ModelHasNoLimit(c, x, y, bs[..RUN], START);
  }

  /** Eight sub-steps with their energy late and one with it early, none over full scale and every one
      charged exactly what came: for some limit the daemon accepts the coil reaches it though no bound
      did. */
  lemma LateThenEarly(c: Curves) returns (limit: real)
    requires Lawful(c)
    ensures Accepted(GLOBALS, Driver(limit)) && Inversion.FullScale(Driver(limit)) == FULL
    ensures var s, bs := Driver(limit), Slots(RUN + 1);
      && Unlatched(c, s, bs, START)
      && PlaysAs(FULL, bs, ThenEarly(FULL, bs, RUN)) && |ThenEarly(FULL, bs, RUN)[RUN].truth| == 2
      && PlantAt(c, s, ThenEarly(FULL, bs, RUN), START, RUN, 1) == s.tLimit > Bounds(c, s, bs, START)[RUN]
      && !NeverAtLimit(c, s, FULL, bs, START)
  {
    SlotsArePlayable(0.0, RUN + 1);
    var bs := Slots(RUN + 1);
    limit := EarlyPeak(c, Driver(0.0), FULL, bs, START, RUN);
    SlotsArePlayable(limit, RUN + 1);
    PeakHasNoLimit(c, limit, 0.0);
    var s := Driver(limit);
    assert Unlatched(c, s, bs, START) by {
      forall i | 0 <= i < |bs|
        ensures Bounds(c, s, bs, START)[i] < s.tLimit
      {
        EarlyIsOver(c, limit, i);
      }
    }
    EarlyIsOver(c, limit, RUN);
    PlayedAs(FULL, bs, RUN);
    SubsAreReached(c, s, FULL, bs, START, RUN);
    assert Below(START, START);
  }
}
