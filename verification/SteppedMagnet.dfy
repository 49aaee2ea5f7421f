/** The magnet's bound of the daemon's own step (src/boot.rs, `magnet_bound_in` against src/model.rs,
    `heat_temps`): the derivation is of a continuous plant, the model steps the magnet before the coil, each
    lag in full. For steps of one length its combination moves by the same pull, for a coil and a magnet a
    little slower; what that costs the bound is in its margin. */
module SteppedMagnet {
  import opened Config
  import opened Curves
  import opened Options
  import opened Reals
  import opened Thermal
  import Evidence

  /** A plant whose forward steps of `h` pull as the model's own do. */
  ghost function Slower(c: Curves, s: Spec, h: real): (t: Spec)
    requires Lawful(c) && ValidSpec(s) && h > 0.0
    ensures ValidSpec(t)
  {
    SharesPositive(c, s, h);
    Evidence.RatioPositive(s);
    Nonneg(Evidence.Ratio(s), h);
    QuotientPositive(h, CoilShare(c, s, h));
    QuotientPositive(h, MagnetShare(c, s, h));
    s.(tauCoil := h / CoilShare(c, s, h), tauMagnet := h / MagnetShare(c, s, h) + Evidence.Ratio(s) * h)
  }

  /** The shares of their gaps that a step of `h` closes. */
  function CoilShare(c: Curves, s: Spec, h: real): real
    requires ValidSpec(s)
  {
    1.0 - c.decay(h / s.tauCoil)
  }

  function MagnetShare(c: Curves, s: Spec, h: real): real
    requires ValidSpec(s)
  {
    1.0 - c.decay(h / s.tauMagnet)
  }

  lemma SharesPositive(c: Curves, s: Spec, h: real)
    requires Lawful(c) && ValidSpec(s) && h > 0.0
    ensures 0.0 < CoilShare(c, s, h) < 1.0 && 0.0 < MagnetShare(c, s, h) < 1.0
  {
    QuotientPositive(h, s.tauCoil);
    QuotientPositive(h, s.tauMagnet);
    DecayPositive(c, h / s.tauCoil);
    DecayPositive(c, h / s.tauMagnet);
  }

  function StateOf(n: Nodes): Evidence.State {
    Evidence.State(n.coil, n.magnet)
  }

  // ---- the pull ------------------------------------------------------------------------------------

  /** The combination of two nodes, by its coefficients. */
  function Combined(tm: real, tc: real, r: real, m: real, x: real): real {
    tm * m - r * tc * x
  }

  /** A step closes these shares of both gaps, the coil's to the magnet of its end. */
  predicate Shares(n: Nodes, next: Nodes, p: real, kc: real, km: real, rc: real, rm: real, ta: real) {
    && next.magnet - n.magnet == (ta + p * rm - n.magnet) * km
    && next.coil - n.coil == (next.magnet + p * rc - n.coil) * kc
  }

  /** The time constants these shares are of in forward steps. */
  predicate Scales(h: real, tc: real, slow: real, kc: real, km: real, rc: real, rm: real, r: real) {
    tc * kc == h && (slow - r * h) * km == h && r * rc == rm
  }

  lemma OwnStepTerms(n: Nodes, next: Nodes, p: real, h: real, tc: real, slow: real, kc: real, km: real, rc: real,
                     rm: real, r: real, ta: real)
    requires Scales(h, tc, slow, kc, km, rc, rm, r) && Shares(n, next, p, kc, km, rc, rm, ta)
    ensures Combined(slow, tc, r, next.magnet, next.coil)
         == Combined(slow, tc, r, n.magnet, n.coil) + Evidence.Pull(h, r, ta, n.coil, n.magnet)
  {
    var tm, dm, dx := slow - r * h, next.magnet - n.magnet, next.coil - n.coil;
    Scaled(tm, km, h, ta + p * rm - n.magnet, dm);
    Scaled(tc, kc, h, next.magnet + p * rc - n.coil, dx);
    PullOf(tm * dm, tc * dx, n.coil, n.magnet, next.magnet, p, h, rc, rm, r, ta);
    assert slow * next.magnet - slow * n.magnet == tm * dm + r * h * dm;
    assert r * tc * next.coil - r * tc * n.coil == r * (tc * dx);
  }

  lemma PullOf(u: real, v: real, x: real, m: real, m1: real, p: real, h: real, rc: real, rm: real, r: real, ta: real)
    requires r * rc == rm && u == h * (ta + p * rm - m) && v == h * (m1 + p * rc - x)
    ensures u + r * h * (m1 - m) - r * v == Evidence.Pull(h, r, ta, x, m)
  {
    assert r * (h * (m1 + p * rc - x)) == r * h * m1 + h * p * (r * rc) - r * h * x;
  }

  lemma Scaled(tau: real, k: real, h: real, gap: real, d: real)
    requires tau * k == h && d == gap * k
    ensures tau * d == h * gap
  {
    assert tau * (gap * k) == tau * k * gap;
  }

  /** One step of the model moves the combination of the slower plant by exactly its pull, whatever the power. */
  lemma OwnPowerDropsOut(c: Curves, s: Spec, h: real, ta: real, p: real, n: Nodes)
    requires Lawful(c) && ValidSpec(s) && h > 0.0
    ensures var t := Slower(c, s, h);
      Evidence.Y(t, StateOf(Step(KernelOf(c, s, h, ta), p, n)))
      == Evidence.Y(t, StateOf(n)) + Evidence.Pull(h, Evidence.Ratio(t), ta, n.coil, n.magnet)
  {
    var t, next := Slower(c, s, h), Step(KernelOf(c, s, h, ta), p, n);
    ScalesOf(c, s, h);
    StepGaps(c, s, h, ta, p, n);
    hide Slower, Step, KernelOf, CoilShare, MagnetShare, Evidence.Ratio, Evidence.Pull, Evidence.Y, Shares, Scales,
         Combined;
    OwnStepTerms(n, next, p, h, t.tauCoil, t.tauMagnet, CoilShare(c, s, h), MagnetShare(c, s, h), s.trCoil, s.trMagnet,
                 Evidence.Ratio(t), ta);
    YIs(t, n);
    YIs(t, next);
  }

  lemma ScalesOf(c: Curves, s: Spec, h: real)
    requires Lawful(c) && ValidSpec(s) && h > 0.0
    ensures var t := Slower(c, s, h);
      Scales(h, t.tauCoil, t.tauMagnet, CoilShare(c, s, h), MagnetShare(c, s, h), s.trCoil, s.trMagnet, Evidence.Ratio(t))
  {
    Evidence.RatioPositive(s);
    SharesPositive(c, s, h);
    DivideTimes(h, CoilShare(c, s, h));
    DivideTimes(h, MagnetShare(c, s, h));
  }

  lemma YIs(t: Spec, n: Nodes)
    requires ValidSpec(t)
    ensures Evidence.Y(t, StateOf(n)) == Combined(t.tauMagnet, t.tauCoil, Evidence.Ratio(t), n.magnet, n.coil)
  {}

  /** A step in its shares of the gaps. */
  lemma StepGaps(c: Curves, s: Spec, h: real, ta: real, p: real, n: Nodes)
    requires ValidSpec(s)
    ensures Shares(n, Step(KernelOf(c, s, h, ta), p, n), p, CoilShare(c, s, h), MagnetShare(c, s, h), s.trCoil,
                   s.trMagnet, ta)
  {}

  lemma OwnStepContracts(c: Curves, s: Spec, h: real, limit: real, ta: real, p: real, n: Nodes)
    requires Lawful(c) && ValidSpec(s) && h > 0.0 && Evidence.Slowness(Slower(c, s, h)) < 1.0 && n.coil <= limit
    ensures var t := Slower(c, s, h);
      Evidence.Gap(t, limit, ta, StateOf(Step(KernelOf(c, s, h, ta), p, n)))
      <= Times(Evidence.Rest(t, h), Evidence.Gap(t, limit, ta, StateOf(n)))
  {
    hide Step, Evidence.Slowness, Evidence.Ratio, Evidence.Pull, Evidence.Gap, Evidence.Rest, Evidence.Y, Times, Slower,
         KernelOf;
    OwnPowerDropsOut(c, s, h, ta, p, n);
    Evidence.PullContracts(Slower(c, s, h), limit, ta, StateOf(n), StateOf(Step(KernelOf(c, s, h, ta), p, n)), h);
  }

  // ---- runs of steps of one length --------------------------------------------------------------------

  /** Steps of `h`, the coil at or under the limit throughout. */
  ghost predicate Protected(c: Curves, s: Spec, h: real, limit: real, ta: real, n: Nodes, bs: seq<Beat>)
    requires ValidSpec(s)
  {
    && (forall i :: 0 <= i < |bs| ==> bs[i].k == KernelOf(c, s, h, ta))
    && (forall i :: 0 <= i <= |bs| ==> Run(bs[..i], n).coil <= limit)
  }

  function LeftAfter(a: real, n: nat): real {
    if n == 0 then 1.0 else Times(LeftAfter(a, n - 1), a)
  }

  /** What one step leaves of the gap, and that the formula's exponential leaves no more. */
  lemma RestIs(c: Curves, s: Spec, h: real)
    requires Lawful(c) && ValidSpec(s) && h > 0.0
    ensures var a := Evidence.Rest(Slower(c, s, h), h);
      0.0 < a <= 1.0 && a >= c.decay(Evidence.Closed(s, h))
  {
    Evidence.RatioPositive(s);
    SharesPositive(c, s, h);
    var t, r, k := Slower(c, s, h), Evidence.Ratio(s), MagnetShare(c, s, h);
    assert Evidence.Ratio(t) == r;
    Evidence.ClosedTimes(t, h);
    DivideTimes(h, k);
    LeftOf(Evidence.Closed(t, h), r, h, k, h / k, t.tauMagnet);
    ExponentialLeaves(c, s, h);
    hide Slower, Evidence.Closed, Evidence.Ratio, MagnetShare, Evidence.Rest, Times;
    RestRange(Evidence.Rest(t, h), r, k, c.decay(Evidence.Closed(s, h)));
  }

  lemma LeftOf(x: real, r: real, h: real, k: real, tm: real, slow: real)
    requires h > 0.0 && k > 0.0 && tm * k == h && slow == tm + r * h && x * slow == (1.0 + r) * h
    ensures Times(1.0 - x, 1.0 + Times(r, k)) == 1.0 - k
  {
    assert slow * k == h * (1.0 + r * k);
    assert x * (h * (1.0 + r * k)) == x * slow * k;
    var u, v := x * (1.0 + r * k), (1.0 + r) * k;
    assert u * h == v * h;
    Cancel(h, u, v);
  }

  lemma RestRange(a: real, r: real, k: real, e: real)
    requires r > 0.0 && 0.0 < k < 1.0 && Times(a, 1.0 + Times(r, k)) == 1.0 - k && Times(e, 1.0 + Times(r, k)) <= 1.0 - k
    ensures e <= a && 0.0 < a <= 1.0
  {
    Positive(r, k);
    var d := 1.0 + r * k;
    Unscale(d, e, a);
    if a <= 0.0 { ScaleOrder(d, a, 0.0); }
    if a > 1.0 { ScaleStrict(d, 1.0, a); }
  }

  lemma ExponentialLeaves(c: Curves, s: Spec, h: real)
    requires Lawful(c) && ValidSpec(s) && h > 0.0
    ensures Times(c.decay(Evidence.Closed(s, h)), 1.0 + Times(Evidence.Ratio(s), MagnetShare(c, s, h)))
         <= 1.0 - MagnetShare(c, s, h)
  {
    Evidence.RatioPositive(s);
    QuotientPositive(h, s.tauMagnet);
    ClosedIs(s, h);
    hide Evidence.Closed, Evidence.Ratio, Lawful, Times;
    ExponentialUnder(c, Evidence.Ratio(s), h / s.tauMagnet, Evidence.Closed(s, h));
  }

  lemma ExponentialUnder(c: Curves, r: real, y: real, x: real)
    requires Lawful(c) && r > 0.0 && y > 0.0 && x == y + Times(r, y)
    ensures Times(c.decay(x), 1.0 + Times(r, 1.0 - c.decay(y))) <= c.decay(y)
  {
    var z := Times(r, y);
    Nonneg(r, y);
    DecayAdd(c, y, z);
    Evidence.DecayUnderInverse(c, z);
    DecayTangent(c, y);
    DecayPositive(c, y);
    DecayInverse(c, z);
    var g, f := c.decay(y), c.decay(z);
    hide Lawful;
    LeavesTerms(g, f, r, y, z, 1.0 - g);
  }

  lemma ClosedIs(s: Spec, h: real)
    requires ValidSpec(s)
    ensures Evidence.Closed(s, h) == h / s.tauMagnet + Times(Evidence.Ratio(s), h / s.tauMagnet)
  {
    var r, y := Evidence.Ratio(s), h / s.tauMagnet;
    DivideTimes(h, s.tauMagnet);
    Evidence.ClosedTimes(s, h);
    hide Evidence.Closed, Evidence.Ratio;
    assert (y + r * y) * s.tauMagnet == h + r * (y * s.tauMagnet);
    Cancel(s.tauMagnet, y + r * y, Evidence.Closed(s, h));
  }

  lemma LeavesTerms(g: real, f: real, r: real, y: real, z: real, k: real)
    requires g > 0.0 && f > 0.0 && r > 0.0 && z == Times(r, y) && f * (1.0 + z) <= 1.0 && k == 1.0 - g && k <= y
    ensures Times(g * f, 1.0 + Times(r, k)) <= 1.0 - k
  {
    ScaleOrder(r, k, y);
    ScaleOrder(f, 1.0 + r * k, 1.0 + z);
    ScaleOrder(g, f * (1.0 + r * k), 1.0);
    assert g * f * (1.0 + r * k) == g * (f * (1.0 + r * k));
  }

  /** How long `n` steps of `h` last. */
  function Span(n: nat, h: real): real {
    n as real * h
  }

  lemma SpanMore(n: nat, h: real)
    ensures Span(n + 1, h) == Span(n, h) + h && Span(0, h) == 0.0
    ensures h >= 0.0 ==> Span(n, h) >= 0.0
  {
    assert (n + 1) as real * h == n as real * h + h;
    if h >= 0.0 { Nonneg(n as real, h); }
  }

  /** However many steps: their factors leave at least what the exponential does over the time. */
  lemma {:induction false} PowerOverExp(c: Curves, s: Spec, h: real, n: nat)
    requires Lawful(c) && ValidSpec(s) && h > 0.0
    ensures Evidence.Closed(s, Span(n, h)) >= 0.0
    ensures c.decay(Evidence.Closed(s, Span(n, h))) <= LeftAfter(Evidence.Rest(Slower(c, s, h), h), n) <= 1.0
    ensures LeftAfter(Evidence.Rest(Slower(c, s, h), h), n) >= 0.0
  {
    hide Evidence.Rest, Slower, Times, Lawful;
    SpanMore(n, h);
    Evidence.ClosedNonneg(s, Span(n, h));
    var a := Evidence.Rest(Slower(c, s, h), h);
    if n == 0 {
      assert Evidence.Closed(s, 0.0) == 0.0;
      DecayInverse(c, 0.0);
    } else {
      hide Evidence.Closed, Span;
      PowerOverExp(c, s, h, n - 1);
      RestIs(c, s, h);
      SpanMore(n - 1, h);
      Evidence.ClosedAdds(s, Span(n - 1, h), h);
      DecayAdd(c, Evidence.Closed(s, Span(n - 1, h)), Evidence.Closed(s, h));
      DecayInverse(c, Evidence.Closed(s, h));
      DecayInverse(c, Evidence.Closed(s, Span(n - 1, h)));
      Evidence.TimesOver(LeftAfter(a, n - 1), a, c.decay(Evidence.Closed(s, Span(n - 1, h))),
                         c.decay(Evidence.Closed(s, h)));
      Evidence.Shares(LeftAfter(a, n - 1), a);
    }
  }

  lemma {:induction false} RunContracts(c: Curves, s: Spec, h: real, limit: real, ta: real, n: Nodes, bs: seq<Beat>)
    requires Lawful(c) && ValidSpec(s) && h > 0.0 && Evidence.Slowness(Slower(c, s, h)) < 1.0
    requires Protected(c, s, h, limit, ta, n, bs)
    ensures var t := Slower(c, s, h);
      Evidence.Gap(t, limit, ta, StateOf(Run(bs, n)))
      <= Times(LeftAfter(Evidence.Rest(t, h), |bs|), Evidence.Gap(t, limit, ta, StateOf(n)))
  {
    var t := Slower(c, s, h);
    if bs != [] {
      var l := |bs| - 1;
      var front, mid := bs[..l], Run(bs[..l], n);
      forall i | 0 <= i <= l ensures Run(front[..i], n).coil <= limit {
        assert front[..i] == bs[..i];
      }
      assert mid.coil <= limit;
      hide Slower, Evidence.Gap, Evidence.Rest, Times, Step, Evidence.Slowness;
      RunContracts(c, s, h, limit, ta, n, front);
      OwnStepContracts(c, s, h, limit, ta, bs[l].watts, mid);
      RestIs(c, s, h);
      Evidence.ChainGap(Evidence.Gap(t, limit, ta, StateOf(n)), LeftAfter(Evidence.Rest(t, h), l), Evidence.Rest(t, h),
                        Evidence.Gap(t, limit, ta, StateOf(mid)),
                 Evidence.Gap(t, limit, ta, StateOf(Run(bs, n))));
    }
  }

  // ---- from the ambient ---------------------------------------------------------------------------------

  lemma SameRatio(c: Curves, s: Spec, h: real, limit: real, ta: real)
    requires Lawful(c) && ValidSpec(s) && h > 0.0
    ensures var t := Slower(c, s, h);
      Evidence.Ratio(t) == Evidence.Ratio(s) && Evidence.MStar(t, limit, ta) == Evidence.MStar(s, limit, ta)
  {}

  /** A configuration whose coil is quicker than its combination by more than a step of `h`. */
  predicate Slow(s: Spec, h: real)
    requires ValidSpec(s)
  {
    (1.0 + Evidence.Ratio(s)) * s.tauCoil + h < s.tauMagnet
  }

  /** Then the slower plant is one the derivation covers too. */
  lemma StepsAreCovered(c: Curves, s: Spec, h: real)
    requires Lawful(c) && ValidSpec(s) && h > 0.0 && Slow(s, h)
    ensures Evidence.Slowness(Slower(c, s, h)) < 1.0 && Evidence.Slowness(s) < 1.0
  {
    hide Slower, Evidence.Ratio, Evidence.Slowness, Slow;
    SameRatio(c, s, h, 0.0, 0.0);
    CoilIsLittleSlower(c, s, h);
    MagnetIsNoQuicker(c, s, h);
    PlantIsCovered(s, Slower(c, s, h), h);
  }

  lemma PlantIsCovered(s: Spec, t: Spec, h: real)
    requires ValidSpec(s) && ValidSpec(t) && h > 0.0 && Slow(s, h) && Evidence.Ratio(t) == Evidence.Ratio(s)
    requires t.tauCoil <= s.tauCoil + h && t.tauMagnet >= s.tauMagnet + Times(Evidence.Ratio(s), h)
    ensures Evidence.Slowness(t) < 1.0 && Evidence.Slowness(s) < 1.0
  {
    Evidence.RatioPositive(s);
    var r := Evidence.Ratio(s);
    hide Evidence.Ratio, Evidence.Slowness;
    CoveredTerms(s.tauCoil, s.tauMagnet, h, r, t.tauCoil, t.tauMagnet);
    SlownessUnder(t, r);
    SlownessUnder(s, r);
  }

  lemma CoveredTerms(tc: real, tm: real, h: real, r: real, tc2: real, tm2: real)
    requires r > 0.0 && h > 0.0 && (1.0 + r) * tc + h < tm && tc2 <= tc + h && tm2 >= tm + r * h
    ensures (1.0 + r) * tc2 < tm2 && (1.0 + r) * tc < tm
  {
    ScaleOrder(1.0 + r, tc2, tc + h);
    assert (1.0 + r) * (tc + h) == (1.0 + r) * tc + h + r * h;
  }

  lemma SlownessUnder(t: Spec, r: real)
    requires ValidSpec(t) && r == Evidence.Ratio(t) && (1.0 + r) * t.tauCoil < t.tauMagnet
    ensures Evidence.Slowness(t) < 1.0
  {
    Evidence.StarTerms(t, 0.0, 0.0);
    hide Evidence.Slowness, Evidence.Ratio;
    if Evidence.Slowness(t) >= 1.0 { ScaleOrder(t.tauMagnet, 1.0, Evidence.Slowness(t)); }
  }

  lemma CoilIsLittleSlower(c: Curves, s: Spec, h: real)
    requires Lawful(c) && ValidSpec(s) && h > 0.0
    ensures Slower(c, s, h).tauCoil <= s.tauCoil + h
  {
    SharesPositive(c, s, h);
    var x, k := h / s.tauCoil, CoilShare(c, s, h);
    QuotientPositive(h, s.tauCoil);
    Evidence.DecayUnderInverse(c, x);
    DivideTimes(h, s.tauCoil);
    DivideTimes(h, k);
    ShareTerms(k, x, h, s.tauCoil, h / k);
  }

  lemma ShareTerms(k: real, x: real, h: real, tc: real, t: real)
    requires k > 0.0 && x > 0.0 && tc > 0.0 && x * tc == h && t * k == h && (1.0 - k) * (1.0 + x) <= 1.0
    ensures t <= tc + h
  {
    assert x <= k * (1.0 + x);
    var a, b := x, k * (1.0 + x);
    ScaleOrder(tc, a, b);
    assert k * (1.0 + x) * tc == (tc + h) * k;
    Unscale(k, t, tc + h);
  }

  lemma MagnetIsNoQuicker(c: Curves, s: Spec, h: real)
    requires Lawful(c) && ValidSpec(s) && h > 0.0
    ensures Slower(c, s, h).tauMagnet >= s.tauMagnet + Times(Evidence.Ratio(s), h)
  {
    SharesPositive(c, s, h);
    var y, k := h / s.tauMagnet, MagnetShare(c, s, h);
    DecayTangent(c, y);
    DivideTimes(h, s.tauMagnet);
    DivideTimes(h, k);
    ScaleOrder(s.tauMagnet, k, y);
    Unscale(k, s.tauMagnet, h / k);
  }

  lemma AtEnd(t: Spec, limit: real, ta: real, end: Evidence.State, v: real)
    requires ValidSpec(t) && end.coil <= limit && Evidence.Gap(t, limit, ta, end) <= v
    ensures Times(t.tauMagnet, end.magnet) <= Times(t.tauMagnet, Evidence.MStar(t, limit, ta)) + v
  {
    Evidence.RatioPositive(t);
    Evidence.StarIsMStar(t, limit, ta);
    var k, y := Evidence.Ratio(t) * t.tauCoil, Evidence.YStar(t, limit, ta);
    Nonneg(Evidence.Ratio(t), t.tauCoil);
    ScaleOrder(k, end.coil, limit);
    DivideTimes(y + k * limit, t.tauMagnet);
    assert y + k * limit == t.tauMagnet * Evidence.MStar(t, limit, ta);
  }

  /** From the ambient the daemon's own steps, of any one length, never take the magnet past M* either. */
  lemma OwnStepsUnderMStar(c: Curves, s: Spec, h: real, limit: real, ta: real, t0: real, bs: seq<Beat>)
    requires Lawful(c) && ValidSpec(s) && h > 0.0 && Slow(s, h)
    requires t0 <= ta <= limit && Protected(c, s, h, limit, ta, Nodes(t0, t0), bs)
    ensures Run(bs, Nodes(t0, t0)).magnet <= Evidence.MStar(s, limit, ta)
  {
    var n, t := Nodes(t0, t0), Slower(c, s, h);
    hide Slower, Evidence.Gap, Evidence.MStar, Evidence.Slowness, Evidence.Ratio, Times, Step, LeftAfter;
    StepsAreCovered(c, s, h);
    SameRatio(c, s, h, limit, ta);
    assert bs[..|bs|] == bs;
    Evidence.AmbientGap(t, limit, ta, t0);
    RunContracts(c, s, h, limit, ta, n, bs);
    PowerOverExp(c, s, h, |bs|);
    Evidence.ShareSign(LeftAfter(Evidence.Rest(t, h), |bs|), Evidence.Gap(t, limit, ta, StateOf(n)), 0.0);
    EndUnder(t, limit, ta, Run(bs, n));
  }

  lemma EndUnder(t: Spec, limit: real, ta: real, end: Nodes)
    requires ValidSpec(t) && end.coil <= limit && Evidence.Gap(t, limit, ta, StateOf(end)) <= 0.0
    ensures end.magnet <= Evidence.MStar(t, limit, ta)
  {
    hide Evidence.Gap, Evidence.MStar;
    AtEnd(t, limit, ta, StateOf(end), 0.0);
    EndTerms(t.tauMagnet, end.magnet, Evidence.MStar(t, limit, ta), 0.0);
  }

  // ---- from a saved magnet --------------------------------------------------------------------------------

  /** How far over M* a magnet of `m0` with the coil at `lo` counts, when the coil comes to the limit. */
  function Excess(t: Spec, limit: real, ta: real, m0: real, lo: real): real
    requires ValidSpec(t)
  {
    m0 - Evidence.MStar(t, limit, ta) + Times(Times(Evidence.Ratio(t), t.tauCoil), limit - lo) / t.tauMagnet
  }

  lemma ExcessIs(t: Spec, limit: real, ta: real, m0: real, lo: real)
    requires ValidSpec(t)
    ensures Evidence.Gap(t, limit, ta, Evidence.State(lo, m0)) == Times(t.tauMagnet, Excess(t, limit, ta, m0, lo))
  {
    Evidence.StarIsMStar(t, limit, ta);
    var k, y, m := Evidence.Ratio(t) * t.tauCoil, Evidence.YStar(t, limit, ta), Evidence.MStar(t, limit, ta);
    DivideTimes(y + k * limit, t.tauMagnet);
    assert y + k * limit == t.tauMagnet * m;
    var x := k * (limit - lo);
    DivideTimes(x, t.tauMagnet);
    hide Evidence.YStar, Evidence.MStar, Evidence.Ratio;
    ExcessTerms(t.tauMagnet, m0, m, x / t.tauMagnet, x);
  }

  lemma ExcessTerms(tm: real, m0: real, m: real, q: real, x: real)
    requires q * tm == x
    ensures tm * (m0 - m + q) == tm * m0 - tm * m + x
  {}

  /** What a step of `h` costs the bound is in its margin. */
  predicate InMargin(s: Spec, h: real, limit: real, lo: real)
    requires ValidSpec(s)
  {
    lo <= limit && Times(Times(Evidence.Ratio(s), h), limit - lo) <= Times(Evidence.MAGNET_MARGIN_K, s.tauMagnet)
  }

  /** The slower plant counts it at most the margin higher. */
  lemma ExcessWithin(c: Curves, s: Spec, h: real, limit: real, ta: real, m0: real, lo: real)
    requires Lawful(c) && ValidSpec(s) && h > 0.0 && InMargin(s, h, limit, lo)
    ensures Excess(Slower(c, s, h), limit, ta, m0, lo) <= Excess(s, limit, ta, m0, lo) + Evidence.MAGNET_MARGIN_K
  {
    Evidence.RatioPositive(s);
    SameRatio(c, s, h, limit, ta);
    CoilIsLittleSlower(c, s, h);
    MagnetIsNoQuicker(c, s, h);
    var t, r := Slower(c, s, h), Evidence.Ratio(s);
    hide Slower, Evidence.Ratio, Evidence.MStar, Times;
    ProductIs(r, h);
    WithinTerms(r, h, limit - lo, s.tauCoil, s.tauMagnet, t.tauCoil, t.tauMagnet);
  }

  lemma ProductIs(r: real, h: real)
    requires r > 0.0 && h > 0.0
    ensures r * h == Times(r, h) && r * h >= 0.0
  {
    Nonneg(r, h);
  }

  lemma WithinTerms(r: real, h: real, rise: real, tc: real, tm: real, tc2: real, tm2: real)
    requires r > 0.0 && h > 0.0 && rise >= 0.0 && tc > 0.0 && tm > 0.0 && 0.0 < tc2 <= tc + h && tm2 >= tm
    requires Times(Times(r, h), rise) <= Times(Evidence.MAGNET_MARGIN_K, tm)
    ensures Times(Times(r, tc2), rise) / tm2 <= Times(Times(r, tc), rise) / tm + Evidence.MAGNET_MARGIN_K
  {
    var x, y, z := Times(Times(r, tc2), rise), Times(Times(r, tc), rise), Times(Times(r, h), rise);
    ScaleOrder(r, tc2, tc + h);
    ScaleOrder(rise, r * tc2, r * (tc + h));
    assert r * (tc + h) * rise == r * tc * rise + r * h * rise;
    Nonneg(r, tc2);
    Nonneg(r * tc2, rise);
    QuotientWithin(x, y, z, tm, tm2);
  }

  lemma QuotientWithin(x: real, y: real, z: real, tm: real, tm2: real)
    requires x >= 0.0 && x <= y + z && z <= Evidence.MAGNET_MARGIN_K * tm && 0.0 < tm <= tm2
    ensures x / tm2 <= y / tm + Evidence.MAGNET_MARGIN_K
  {
    var q, w := x / tm2, y / tm;
    QuotientNonneg(x, tm2);
    DivideTimes(x, tm2);
    DivideTimes(y, tm);
    ScaleOrder(q, tm, tm2);
    Unscale(tm, q, w + Evidence.MAGNET_MARGIN_K);
  }

  /** A run from at most the saved magnet ends no further over M* than what it leaves of its excess. */
  lemma EndExcess(c: Curves, s: Spec, h: real, limit: real, ta: real, m0: real, lo: real, n: Nodes, bs: seq<Beat>)
    requires Lawful(c) && ValidSpec(s) && h > 0.0 && Evidence.Slowness(Slower(c, s, h)) < 1.0
    requires Protected(c, s, h, limit, ta, n, bs) && n.magnet <= m0 && lo <= n.coil
    ensures var t := Slower(c, s, h);
      Run(bs, n).magnet
      <= Evidence.MStar(s, limit, ta) + Times(LeftAfter(Evidence.Rest(t, h), |bs|), Excess(t, limit, ta, m0, lo))
  {
    var t := Slower(c, s, h);
    assert bs[..|bs|] == bs;
    SameRatio(c, s, h, limit, ta);
    assert Run(bs, n).coil <= limit;
    hide Slower, Evidence.MStar, Evidence.Slowness, Evidence.Ratio, Step, Run, Evidence.Rest, Excess, Evidence.YStar,
         LeftAfter, Evidence.Gap, Times, Protected;
    RunContracts(c, s, h, limit, ta, n, bs);
    PowerOverExp(c, s, h, |bs|);
    StartUnder(t, limit, ta, n, m0, lo);
    ExcessIs(t, limit, ta, m0, lo);
    var a, g, v := LeftAfter(Evidence.Rest(t, h), |bs|), Evidence.Gap(t, limit, ta, StateOf(n)), Excess(t, limit, ta, m0, lo);
    Budget(a, g, t.tauMagnet, v);
    AtEnd(t, limit, ta, StateOf(Run(bs, n)), Times(t.tauMagnet, Times(a, v)));
    EndTerms(t.tauMagnet, Run(bs, n).magnet, Evidence.MStar(s, limit, ta), Times(a, v));
  }

  lemma StartUnder(t: Spec, limit: real, ta: real, n: Nodes, m0: real, lo: real)
    requires ValidSpec(t) && n.magnet <= m0 && lo <= n.coil
    ensures Evidence.Gap(t, limit, ta, StateOf(n)) <= Evidence.Gap(t, limit, ta, Evidence.State(lo, m0))
  {
    Evidence.RatioPositive(t);
    Nonneg(Evidence.Ratio(t), t.tauCoil);
    ScaleOrder(t.tauMagnet, n.magnet, m0);
    ScaleOrder(Evidence.Ratio(t) * t.tauCoil, lo, n.coil);
  }

  lemma Budget(a: real, g: real, tm: real, v: real)
    requires a >= 0.0 && g <= Times(tm, v)
    ensures Times(a, g) <= Times(tm, Times(a, v))
  {
    var u := tm * v;
    ScaleOrder(a, g, u);
    assert a * u == tm * (a * v);
  }

  lemma EndTerms(tm: real, m: real, star: real, u: real)
    requires tm > 0.0 && Times(tm, m) <= Times(tm, star) + Times(tm, u)
    ensures m <= star + u
  {
    var v := star + u;
    assert tm * v == tm * star + tm * u;
    Unscale(tm, m, v);
  }

  /** What is left of an excess of at most the formula's and the margin. */
  lemma LeftExcess(a: real, f: real, u: real, v: real)
    requires 0.0 <= f <= a <= 1.0 && u <= v + Evidence.MAGNET_MARGIN_K
    ensures v >= 0.0 ==> Times(a, u) <= v + Evidence.MAGNET_MARGIN_K
    ensures v < 0.0 ==> Times(a, u) <= Times(f, v) + Evidence.MAGNET_MARGIN_K && Times(a, u) <= Evidence.MAGNET_MARGIN_K
  {
    if v >= 0.0 {
      Evidence.ShareSign(a, u, v + Evidence.MAGNET_MARGIN_K);
    } else {
      Evidence.ShareSign(a, u, Evidence.MAGNET_MARGIN_K);
      LeftUnder(a, f, u, v);
    }
  }

  lemma LeftUnder(a: real, f: real, u: real, v: real)
    requires 0.0 <= f <= a <= 1.0 && u <= v + Evidence.MAGNET_MARGIN_K && v < 0.0
    ensures Times(a, u) <= Times(f, v) + Evidence.MAGNET_MARGIN_K
  {
    Nonneg(1.0 - f, -v);
    assert f * v - v == (1.0 - f) * -v;
    if u >= 0.0 {
      Nonneg(1.0 - a, u);
      assert u - a * u == (1.0 - a) * u;
    } else {
      Nonneg(a - f, -u);
      Nonneg(f, v + Evidence.MAGNET_MARGIN_K - u);
      assert f * v + f * Evidence.MAGNET_MARGIN_K - a * u == (a - f) * -u + f * (v + Evidence.MAGNET_MARGIN_K - u);
    }
  }

  /** The formula in its excess over M*. */
  lemma BoundIs(c: Curves, s: Spec, limit: real, ta: real, cLo: real, m0: real, d: Option<real>)
    requires ValidSpec(s) && Evidence.Slowness(s) < 1.0
    ensures var v := Excess(s, limit, ta, m0, Min(cLo, ta));
      Evidence.MagnetBoundIn(c, s, limit, ta, cLo, Some(m0), d)
      == Evidence.MStar(s, limit, ta) + Evidence.MAGNET_MARGIN_K
         + if v >= 0.0 then v else if d.None? then 0.0 else Times(c.decay(Evidence.Closed(s, Max(d.value, 0.0))), v)
  {
    var lo := Min(cLo, ta);
    var v, y := Excess(s, limit, ta, m0, lo), Evidence.YStar(s, limit, ta);
    SavedGapIs(s, limit, ta, cLo, m0);
    hide Evidence.YStar, Evidence.MStar, Evidence.Ratio, Evidence.Closed, Evidence.MagnetOf, Evidence.Y0, Excess, Times;
    SignOf(s.tauMagnet, v);
    if v >= 0.0 {
      MagnetOfStar(s, limit, ta, v);
    } else if d.None? {
      MagnetOfStar(s, limit, ta, 0.0);
    } else {
      var f := c.decay(Evidence.Closed(s, Max(d.value, 0.0)));
      MagnetOfStar(s, limit, ta, Times(f, v));
      TimesSwap(f, s.tauMagnet, v);
    }
  }

  lemma SavedGapIs(s: Spec, limit: real, ta: real, cLo: real, m0: real)
    requires ValidSpec(s)
    ensures Evidence.Y0(s, m0, ta, cLo) - Evidence.YStar(s, limit, ta)
         == Times(s.tauMagnet, Excess(s, limit, ta, m0, Min(cLo, ta)))
  {
    ExcessIs(s, limit, ta, m0, Min(cLo, ta));
    hide Evidence.YStar, Excess, Evidence.Ratio, Times;
  }

  lemma TimesSwap(f: real, t: real, v: real)
    ensures Times(f, Times(t, v)) == Times(t, Times(f, v))
  {
    assert f * (t * v) == t * (f * v);
  }

  lemma SignOf(tm: real, v: real)
    requires tm > 0.0
    ensures Times(tm, v) >= 0.0 <==> v >= 0.0
    ensures Times(tm, 0.0) == 0.0
  {
    if v >= 0.0 { Nonneg(tm, v); } else { ScaleStrict(tm, v, 0.0); }
  }

  lemma MagnetOfStar(s: Spec, limit: real, ta: real, v: real)
    requires ValidSpec(s)
    ensures Evidence.MagnetOf(s, Evidence.YStar(s, limit, ta) + Times(s.tauMagnet, v), limit)
         == Evidence.MStar(s, limit, ta) + v
  {
    Evidence.StarIsMStar(s, limit, ta);
    var y, k, m := Evidence.YStar(s, limit, ta), Evidence.Ratio(s) * s.tauCoil, Evidence.MStar(s, limit, ta);
    DivideTimes(y + k * limit, s.tauMagnet);
    assert y + k * limit == s.tauMagnet * m;
    hide Evidence.YStar, Evidence.MStar, Evidence.Ratio;
    var top := y + Times(s.tauMagnet, v) + k * limit;
    assert top == (m + v) * s.tauMagnet;
    DivideTimes(top, s.tauMagnet);
    Cancel(s.tauMagnet, top / s.tauMagnet, m + v);
  }

  /** The daemon's own steps, of any one length, however many: from at most the saved magnet, no longer than the
      time since when that is known, they leave the magnet under the formula's bound, if the configuration's
      magnet is slower than its coil by more than a step and the step is within the margin. */
  lemma OwnStepsUnderBound(c: Curves, s: Spec, h: real, limit: real, ta: real, cLo: real, m0: real, d: Option<real>,
                           n: Nodes, bs: seq<Beat>)
    requires Lawful(c) && ValidSpec(s) && h > 0.0 && Slow(s, h)
    requires InMargin(s, h, limit, Min(cLo, ta))
    requires Protected(c, s, h, limit, ta, n, bs) && n.magnet <= m0 && Min(cLo, ta) <= n.coil
    requires d.Some? ==> Span(|bs|, h) <= d.value
    ensures Run(bs, n).magnet <= Evidence.MagnetBoundIn(c, s, limit, ta, cLo, Some(m0), d)
  {
    var lo, t := Min(cLo, ta), Slower(c, s, h);
    hide Slower, Evidence.MagnetBoundIn, Evidence.MStar, Protected, Evidence.Slowness, Excess, Run, Evidence.Rest,
         Evidence.Closed, LeftAfter, Times, Evidence.Ratio, Span, Slow, InMargin, Lawful;
    StepsAreCovered(c, s, h);
    ExcessWithin(c, s, h, limit, ta, m0, lo);
    EndExcess(c, s, h, limit, ta, m0, lo, n, bs);
    PowerOverExp(c, s, h, |bs|);
    BoundIs(c, s, limit, ta, cLo, m0, d);
    var f := SpanFactor(c, s, h, |bs|, d);
    LeftExcess(LeftAfter(Evidence.Rest(t, h), |bs|), f, Excess(t, limit, ta, m0, lo), Excess(s, limit, ta, m0, lo));
  }

  /** The formula's exponential over the time since is at most that over the run. */
  lemma SpanFactor(c: Curves, s: Spec, h: real, n: nat, d: Option<real>) returns (f: real)
    requires Lawful(c) && ValidSpec(s) && h > 0.0 && (d.Some? ==> Span(n, h) <= d.value)
    ensures 0.0 <= f <= c.decay(Evidence.Closed(s, Span(n, h)))
    ensures d.Some? ==> f == c.decay(Evidence.Closed(s, Max(d.value, 0.0)))
  {
    SpanMore(n, h);
    var x := Evidence.Closed(s, Span(n, h));
    DecayInverse(c, x);
    if d.None? {
      f := 0.0;
    } else {
      f := c.decay(Evidence.Closed(s, d.value));
      Evidence.ClosedOrder(s, Span(n, h), d.value);
      DecayAntitone(c, x, Evidence.Closed(s, d.value));
      DecayInverse(c, Evidence.Closed(s, d.value));
    }
  }
}
