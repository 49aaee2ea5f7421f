/** The bounds of a start from evidence (src/boot.rs): the hottest a magnet can be, and the most
    energy a coil can have taken, under any program that kept the coil at or under its limit. */
module Evidence {
  import opened Config
  import opened Curves
  import opened Options
  import opened Reals

  const MAGNET_MARGIN_K := 1.0

  /** Two first-order lags in forward-Euler steps. */
  datatype State = State(coil: real, magnet: real)

  datatype Beat = Beat(dt: real, watts: real)

  function Next(s: Spec, ta: real, n: State, b: Beat): State
    requires ValidSpec(s)
  {
    State(Toward(n.coil, n.magnet + b.watts * s.trCoil, b.dt, s.tauCoil),
          Toward(n.magnet, ta + b.watts * s.trMagnet, b.dt, s.tauMagnet))
  }

  function Toward(x: real, target: real, dt: real, tau: real): real
    requires tau > 0.0
  {
    x + dt / tau * (target - x)
  }

  function After(s: Spec, ta: real, n: State, bs: seq<Beat>): State
    requires ValidSpec(s)
  {
    if bs == [] then n else Next(s, ta, After(s, ta, n, bs[..|bs| - 1]), bs[|bs| - 1])
  }

  /** The magnet's share of the heating: r in the derivation. */
  function Ratio(s: Spec): real
    requires ValidSpec(s)
  {
    s.trMagnet / s.trCoil
  }

  /** How much faster the combined node is than the coil: the derivation needs it under one. */
  function Slowness(s: Spec): real
    requires ValidSpec(s)
  {
    (1.0 + Ratio(s)) * s.tauCoil / s.tauMagnet
  }

  /** The combination of the two nodes that the power drops out of. */
  function Y(s: Spec, n: State): real
    requires ValidSpec(s)
  {
    s.tauMagnet * n.magnet - Ratio(s) * s.tauCoil * n.coil
  }

  function YStar(s: Spec, limit: real, ta: real): real
    requires ValidSpec(s)
  {
    s.tauMagnet * (ta + Ratio(s) * (1.0 - Slowness(s)) * limit) / (1.0 + Ratio(s))
  }

  /** The magnet when the combination is `y` and the coil at `coil`. */
  function MagnetOf(s: Spec, y: real, coil: real): real
    requires ValidSpec(s)
  {
    (y + Ratio(s) * s.tauCoil * coil) / s.tauMagnet
  }

  /** The combination the formula starts from: the coil at least the ambient. */
  function Y0(s: Spec, m0: real, ta: real, cLo: real): real
    requires ValidSpec(s)
  {
    s.tauMagnet * m0 - Ratio(s) * s.tauCoil * Min(cLo, ta)
  }

  /** The share of the gap a step closes. */
  function Closed(s: Spec, dt: real): real
    requires ValidSpec(s)
  {
    (1.0 + Ratio(s)) * dt / s.tauMagnet
  }

  /** The combination the formula bounds the magnet by. */
  function BoundY(c: Curves, s: Spec, limit: real, ta: real, cLo: real, m0: Option<real>, d: Option<real>): real
    requires ValidSpec(s)
  {
    var yStar := YStar(s, limit, ta);
    if m0.None? then yStar
    else
      var y0 := Y0(s, m0.value, ta, cLo);
      if y0 >= yStar then y0
      else if d.None? then yStar
      else yStar + Times(c.decay(Closed(s, Max(d.value, 0.0))), y0 - yStar)
  }

  /** `magnet_bound_in`: without a magnet much slower than the coil only the limit holds. */
  function MagnetBoundIn(c: Curves, s: Spec, limit: real, ta: real, cLo: real, m0: Option<real>, d: Option<real>): real
    requires ValidSpec(s)
  {
    if !(Slowness(s) < 1.0) then
      if m0.None? then limit else Max(m0.value, limit)
    else
      MagnetOf(s, BoundY(c, s, limit, ta, cLo, m0, d), limit) + MAGNET_MARGIN_K
  }

  // ---- the power drops out -------------------------------------------------------------------

  lemma RatioPositive(s: Spec)
    requires ValidSpec(s)
    ensures Ratio(s) > 0.0 && Ratio(s) * s.trCoil == s.trMagnet
  {
    DivideTimes(s.trMagnet, s.trCoil);
    DivideOrder(s.trMagnet, 0.0, s.trCoil);
  }

  lemma StepTerms(c: real, m: real, p: real, dt: real, tc: real, tm: real, rc: real, rm: real, r: real, ta: real)
    requires tc > 0.0 && tm > 0.0 && r * rc == rm
    ensures tm * (m + dt / tm * (ta + p * rm - m)) - r * tc * (c + dt / tc * (m + p * rc - c))
         == tm * m - r * tc * c + dt * (ta - (1.0 + r) * m + r * c)
  {
    var x, z := dt / tm, dt / tc;
    DivideTimes(dt, tm);
    DivideTimes(dt, tc);
    assert tm * (m + x * (ta + p * rm - m)) == tm * m + x * tm * (ta + p * rm - m);
    assert r * tc * (c + z * (m + p * rc - c)) == r * tc * c + r * (z * tc) * (m + p * rc - c);
    assert r * dt * (m + p * rc - c) == r * dt * m + dt * p * (r * rc) - r * dt * c;
  }

  /** What the coil and the ambient pull the combination by over a step. */
  function Pull(dt: real, r: real, ta: real, c: real, m: real): real {
    dt * (ta - (1.0 + r) * m + r * c)
  }

  /** One step moves the combination by the coil's pull less the gap's share, whatever the power. */
  lemma PowerDropsOut(s: Spec, ta: real, n: State, b: Beat)
    requires ValidSpec(s)
    ensures Y(s, Next(s, ta, n, b)) == Y(s, n) + Pull(b.dt, Ratio(s), ta, n.coil, n.magnet)
  {
    RatioPositive(s);
    StepTerms(n.coil, n.magnet, b.watts, b.dt, s.tauCoil, s.tauMagnet, s.trCoil, s.trMagnet, Ratio(s), ta);
  }

  /** `star` is where the combination of a coil held at `t` comes to rest. */
  predicate StarOf(star: real, tc: real, tm: real, r: real, ta: real, t: real, e: real) {
    e * tm == (1.0 + r) * tc && star * (1.0 + r) == tm * (ta + r * (1.0 - e) * t)
  }

  /** What a coil under `t` takes off the pull. */
  function Back(dt: real, r: real, e: real, t: real, c: real): real {
    dt * r * (1.0 - e) * (t - c)
  }

  /** The combination's gap to its star over the magnet's time, by the temperatures it is made of. */
  function Weight(c: real, m: real, r: real, ta: real, t: real, e: real): real {
    (1.0 + r) * m - r * c * e - ta - r * (1.0 - e) * t
  }

  lemma GapIs(c: real, m: real, tc: real, tm: real, r: real, ta: real, t: real, star: real, e: real, y: real)
    requires StarOf(star, tc, tm, r, ta, t, e) && y == tm * m - r * tc * c
    ensures (1.0 + r) * (y - star) == tm * Weight(c, m, r, ta, t, e)
  {
    assert (1.0 + r) * y == (1.0 + r) * (tm * m) - r * c * ((1.0 + r) * tc);
    assert r * c * (e * tm) == tm * (r * c * e);
  }

  /** What a step closes of it. */
  lemma GapCloses(z: real, dt: real, tm: real, k: real, x: real, w: real)
    requires tm > 0.0 && k * z == tm * w && x * tm == k * dt
    ensures Times(1.0 - x, z) == z - Times(dt, w)
  {
    assert x * z * tm == z * (x * tm) && z * (k * dt) == dt * (k * z);
    Cancel(tm, x * z, dt * w);
  }

  lemma PullIs(c: real, m: real, dt: real, r: real, ta: real, t: real, e: real)
    ensures Pull(dt, r, ta, c, m) == -Times(dt, Weight(c, m, r, ta, t, e)) - Back(dt, r, e, t, c)
  {}

  /** The same pull in terms of the combination's own gap to its star and the coil's to `t`. */
  lemma PullTerms(c: real, m: real, dt: real, tc: real, tm: real, r: real, ta: real, t: real, star: real, e: real,
                  x: real, y: real)
    requires tm > 0.0 && r > 0.0 && StarOf(star, tc, tm, r, ta, t, e) && x * tm == (1.0 + r) * dt
    requires y == tm * m - r * tc * c
    ensures y + Pull(dt, r, ta, c, m) - star == Times(1.0 - x, y - star) - Back(dt, r, e, t, c)
  {
    hide StarOf, Back, Weight, Times, Pull;
    GapIs(c, m, tc, tm, r, ta, t, star, e, y);
    GapCloses(y - star, dt, tm, 1.0 + r, x, Weight(c, m, r, ta, t, e));
    PullIs(c, m, dt, r, ta, t, e);
  }

  lemma StarTerms(s: Spec, limit: real, ta: real)
    requires ValidSpec(s)
    ensures YStar(s, limit, ta) * (1.0 + Ratio(s)) == s.tauMagnet * (ta + Ratio(s) * (1.0 - Slowness(s)) * limit)
    ensures Slowness(s) * s.tauMagnet == (1.0 + Ratio(s)) * s.tauCoil
  {
    RatioPositive(s);
    DivideTimes(s.tauMagnet * (ta + Ratio(s) * (1.0 - Slowness(s)) * limit), 1.0 + Ratio(s));
    DivideTimes((1.0 + Ratio(s)) * s.tauCoil, s.tauMagnet);
  }

  function Gap(s: Spec, limit: real, ta: real, n: State): real
    requires ValidSpec(s)
  {
    Y(s, n) - YStar(s, limit, ta)
  }

  function Rest(s: Spec, dt: real): real
    requires ValidSpec(s)
  {
    1.0 - Closed(s, dt)
  }

  /** A step that moves the combination by the pull of a coil at or under the limit closes its gap at least
      by the step's share. */
  lemma PullContracts(s: Spec, limit: real, ta: real, n: State, next: State, dt: real)
    requires ValidSpec(s) && Slowness(s) < 1.0 && n.coil <= limit && dt >= 0.0
    requires Y(s, next) == Y(s, n) + Pull(dt, Ratio(s), ta, n.coil, n.magnet)
    ensures Gap(s, limit, ta, next) <= Times(Rest(s, dt), Gap(s, limit, ta, n))
  {
    PullOfGap(s, limit, ta, n, dt);
    hide YStar, Slowness, Ratio, Pull, Times, Y, Closed;
  }

  lemma PullOfGap(s: Spec, limit: real, ta: real, n: State, dt: real)
    requires ValidSpec(s) && Slowness(s) < 1.0 && n.coil <= limit && dt >= 0.0
    ensures Y(s, n) + Pull(dt, Ratio(s), ta, n.coil, n.magnet) - YStar(s, limit, ta)
         <= Times(Rest(s, dt), Gap(s, limit, ta, n))
  {
    hide YStar, Slowness, Ratio, Pull, Times;
    RatioPositive(s);
    StarTerms(s, limit, ta);
    ClosedTimes(s, dt);
    PullBound(n.coil, n.magnet, dt, s.tauCoil, s.tauMagnet, Ratio(s), ta, limit, YStar(s, limit, ta), Slowness(s),
              Closed(s, dt), Y(s, n));
  }

  /** What is left of the gap after a step, at most: with the coil at or under the limit the
      combination closes on its star at least as fast, whatever the power did. */
  lemma StepContracts(s: Spec, limit: real, ta: real, n: State, b: Beat)
    requires ValidSpec(s) && Slowness(s) < 1.0 && n.coil <= limit && b.dt >= 0.0
    ensures Gap(s, limit, ta, Next(s, ta, n, b)) <= Times(Rest(s, b.dt), Gap(s, limit, ta, n))
  {
    PowerDropsOut(s, ta, n, b);
    hide Next, Slowness, Gap, Rest, Pull, Y, Times;
    PullContracts(s, limit, ta, n, Next(s, ta, n, b), b.dt);
  }

  lemma ClosedTimes(s: Spec, dt: real)
    requires ValidSpec(s)
    ensures Closed(s, dt) * s.tauMagnet == (1.0 + Ratio(s)) * dt
  {
    DivideTimes((1.0 + Ratio(s)) * dt, s.tauMagnet);
  }

  lemma PullBound(c: real, m: real, dt: real, tc: real, tm: real, r: real, ta: real, t: real, star: real, e: real,
                  x: real, y: real)
    requires tm > 0.0 && r > 0.0 && StarOf(star, tc, tm, r, ta, t, e) && x * tm == (1.0 + r) * dt
    requires dt >= 0.0 && e < 1.0 && c <= t && y == tm * m - r * tc * c
    ensures y + Pull(dt, r, ta, c, m) - star <= Times(1.0 - x, y - star)
  {
    hide StarOf, Back, Pull, Times;
    PullTerms(c, m, dt, tc, tm, r, ta, t, star, e, x, y);
    PullBack(dt, r, e, t, c);
  }

  lemma PullBack(dt: real, r: real, e: real, t: real, c: real)
    requires dt >= 0.0 && r > 0.0 && e < 1.0 && c <= t
    ensures Back(dt, r, e, t, c) >= 0.0
  {
    Nonneg(dt, r);
    Nonneg(dt * r, 1.0 - e);
    Nonneg(dt * r * (1.0 - e), t - c);
  }

  /** A program of steps the derivation covers: none so long that it overshoots, the coil at or
      under the limit throughout. */
  ghost predicate Protected(s: Spec, limit: real, ta: real, n: State, bs: seq<Beat>)
    requires ValidSpec(s)
  {
    && (forall i :: 0 <= i < |bs| ==> bs[i].dt >= 0.0 && Closed(s, bs[i].dt) <= 1.0)
    && (forall i :: 0 <= i <= |bs| ==> After(s, ta, n, bs[..i]).coil <= limit)
  }

  lemma ProtectedFront(s: Spec, limit: real, ta: real, n: State, bs: seq<Beat>)
    requires ValidSpec(s) && Protected(s, limit, ta, n, bs) && bs != []
    ensures Protected(s, limit, ta, n, bs[..|bs| - 1])
    ensures After(s, ta, n, bs[..|bs| - 1]).coil <= limit && After(s, ta, n, bs).coil <= limit
  {
    var front := bs[..|bs| - 1];
    forall i | 0 <= i <= |front| ensures After(s, ta, n, front[..i]).coil <= limit {
      assert front[..i] == bs[..i];
    }
    assert bs[..|bs|] == bs;
    assert bs[..|bs| - 1] == front;
  }

  /** The share of the gap a program leaves: its steps' own factors. */
  function Left(s: Spec, bs: seq<Beat>): real
    requires ValidSpec(s)
  {
    if bs == [] then 1.0 else Times(Left(s, bs[..|bs| - 1]), Rest(s, bs[|bs| - 1].dt))
  }

  lemma ClosedNonneg(s: Spec, dt: real)
    requires ValidSpec(s) && dt >= 0.0
    ensures Closed(s, dt) >= 0.0
  {
    RatioPositive(s);
    Nonneg(1.0 + Ratio(s), dt);
    var y := (1.0 + Ratio(s)) * dt;
    DivideTimes(y, s.tauMagnet);
    if y / s.tauMagnet < 0.0 { ScaleStrict(s.tauMagnet, y / s.tauMagnet, 0.0); }
  }

  lemma ChainGap(g0: real, l: real, a: real, g1: real, g2: real)
    requires a >= 0.0 && g1 <= Times(l, g0) && g2 <= Times(a, g1)
    ensures g2 <= Times(Times(l, a), g0)
  {
    Nonneg(a, l * g0 - g1);
    assert l * a * g0 - a * g1 == a * (l * g0 - g1);
  }

  /** Over any protected program the combination's gap is at most its start's, times what the
      program leaves. */
  lemma {:induction false} ProgramContracts(s: Spec, limit: real, ta: real, n: State, bs: seq<Beat>)
    requires ValidSpec(s) && Slowness(s) < 1.0 && Protected(s, limit, ta, n, bs)
    ensures 0.0 <= Left(s, bs) <= 1.0
    ensures Gap(s, limit, ta, After(s, ta, n, bs)) <= Times(Left(s, bs), Gap(s, limit, ta, n))
  {
    if bs != [] {
      var l := |bs| - 1;
      ProtectedFront(s, limit, ta, n, bs);
      ProgramContracts(s, limit, ta, n, bs[..l]);
      var mid := After(s, ta, n, bs[..l]);
      StepContracts(s, limit, ta, mid, bs[l]);
      ClosedNonneg(s, bs[l].dt);
      Shares(Left(s, bs[..l]), Rest(s, bs[l].dt));
      ChainGap(Gap(s, limit, ta, n), Left(s, bs[..l]), Rest(s, bs[l].dt), Gap(s, limit, ta, mid),
               Gap(s, limit, ta, After(s, ta, n, bs)));
    }
  }

  lemma Shares(l: real, x: real)
    requires 0.0 <= l <= 1.0 && 0.0 <= x <= 1.0
    ensures 0.0 <= Times(l, x) <= 1.0
  {
    Nonneg(l, x);
    Nonneg(1.0 - l, x);
    assert x - l * x == (1.0 - l) * x;
  }

  // ---- the magnet's bound -----------------------------------------------------------------------

  lemma MagnetIs(s: Spec, n: State)
    requires ValidSpec(s)
    ensures MagnetOf(s, Y(s, n), n.coil) == n.magnet
  {
    var y := s.tauMagnet * n.magnet;
    assert Y(s, n) + Ratio(s) * s.tauCoil * n.coil == y;
    DivideTimes(y, s.tauMagnet);
    var m := y / s.tauMagnet;
    assert m * s.tauMagnet == n.magnet * s.tauMagnet;
    Unscale(s.tauMagnet, m, n.magnet);
    Unscale(s.tauMagnet, n.magnet, m);
  }

  /** A larger combination or a hotter coil only makes the magnet hotter, by the excess over tau. */
  lemma MagnetOrder(s: Spec, y: real, c: real, z: real, d: real, over: real)
    requires ValidSpec(s) && c <= d && y <= z + over * s.tauMagnet
    ensures MagnetOf(s, y, c) <= MagnetOf(s, z, d) + over
  {
    RatioPositive(s);
    var k := Ratio(s) * s.tauCoil;
    Nonneg(Ratio(s), s.tauCoil);
    ScaleOrder(k, c, d);
    DivideTimes(z + k * d, s.tauMagnet);
    assert y + k * c <= (MagnetOf(s, z, d) + over) * s.tauMagnet;
    DivideOrder(y + k * c, MagnetOf(s, z, d) + over, s.tauMagnet);
  }

  /** The magnet of a coil held at its limit for ever. */
  function MStar(s: Spec, limit: real, ta: real): real
    requires ValidSpec(s)
  {
    (ta + Ratio(s) * limit) / (1.0 + Ratio(s))
  }

  lemma StarMagnetTerms(star: real, m: real, r: real, tc: real, tm: real, e: real, t: real, ta: real, y: real, mt: real)
    requires r > 0.0 && y == star + r * tc * t && mt == m * tm
    requires star * (1.0 + r) == tm * (ta + r * (1.0 - e) * t) && e * tm == (1.0 + r) * tc
    requires m * (1.0 + r) == ta + r * t
    ensures y == mt
  {
    assert y * (1.0 + r) == star * (1.0 + r) + r * t * ((1.0 + r) * tc);
    assert tm * (ta + r * (1.0 - e) * t) == tm * (ta + r * t) - r * t * (e * tm);
    assert mt * (1.0 + r) == tm * (m * (1.0 + r));
    Cancel(1.0 + r, y, mt);
  }

  /** At its star, with the coil at the limit, the combination is exactly that magnet. */
  lemma StarIsMStar(s: Spec, limit: real, ta: real)
    requires ValidSpec(s)
    ensures MagnetOf(s, YStar(s, limit, ta), limit) == MStar(s, limit, ta)
  {
    MStarTimes(s, limit, ta, YStar(s, limit, ta) + Ratio(s) * s.tauCoil * limit);
  }

  lemma MStarTimes(s: Spec, limit: real, ta: real, y: real)
    requires ValidSpec(s) && y == YStar(s, limit, ta) + Ratio(s) * s.tauCoil * limit
    ensures y / s.tauMagnet == MStar(s, limit, ta)
  {
    hide Slowness, YStar, Ratio;
    RatioPositive(s);
    StarTerms(s, limit, ta);
    var m := MStar(s, limit, ta);
    DivideTimes(ta + Ratio(s) * limit, 1.0 + Ratio(s));
    StarMagnetTerms(YStar(s, limit, ta), m, Ratio(s), s.tauCoil, s.tauMagnet, Slowness(s), limit, ta, y, m * s.tauMagnet);
    DivideTimes(y, s.tauMagnet);
    Cancel(s.tauMagnet, y / s.tauMagnet, m);
  }

  lemma ShareSign(a: real, g: real, top: real)
    requires 0.0 <= a <= 1.0 && g <= top && top >= 0.0
    ensures Times(a, g) <= top
  {
    if g <= 0.0 { Nonneg(a, -g); assert a * g == -(a * -g); } else { ScaleOrder(g, a, 1.0); }
  }

  /** No program that keeps the coil at or under its limit pumps a magnet past the larger of its
      start's combination and the star's. */
  lemma MagnetNeverPumped(s: Spec, limit: real, ta: real, n: State, bs: seq<Beat>, top: real)
    requires ValidSpec(s) && Slowness(s) < 1.0 && Protected(s, limit, ta, n, bs)
    requires Gap(s, limit, ta, n) <= top && top >= 0.0
    ensures After(s, ta, n, bs).magnet <= MagnetOf(s, YStar(s, limit, ta) + top, limit)
  {
    ProgramContracts(s, limit, ta, n, bs);
    ShareSign(Left(s, bs), Gap(s, limit, ta, n), top);
    AtTheEnd(s, limit, ta, n, bs, YStar(s, limit, ta) + top, 0.0);
  }

  lemma AtTheEnd(s: Spec, limit: real, ta: real, n: State, bs: seq<Beat>, y: real, over: real)
    requires ValidSpec(s) && Protected(s, limit, ta, n, bs)
    requires Y(s, After(s, ta, n, bs)) <= y + over * s.tauMagnet
    ensures After(s, ta, n, bs).magnet <= MagnetOf(s, y, limit) + over
  {
    assert bs[..|bs|] == bs;
    var end := After(s, ta, n, bs);
    MagnetIs(s, end);
    MagnetOrder(s, Y(s, end), end.coil, y, limit, over);
  }

  lemma AmbientIdentity(t0: real, ta: real, limit: real, r: real, tc: real, tm: real, e: real, star: real)
    requires e * tm == (1.0 + r) * tc && star * (1.0 + r) == tm * (ta + r * (1.0 - e) * limit)
    ensures var d := tm - (1.0 + r) * tc;
      && d == tm * (1.0 - e)
      && star * (1.0 + r) - (tm * t0 - r * tc * t0) * (1.0 + r)
           == d * r * (limit - ta) + (d + tc) * (ta - t0) * (1.0 + r)
  {
    assert tm * (ta + r * (1.0 - e) * limit) == tm * (ta + r * limit) - r * limit * (e * tm);
  }

  lemma AmbientTerms(t0: real, ta: real, limit: real, r: real, tc: real, tm: real, d: real, e: real)
    requires t0 <= ta <= limit && r > 0.0 && tc > 0.0 && tm > 0.0 && e < 1.0 && d == tm * (1.0 - e)
    ensures d * r * (limit - ta) >= 0.0
    ensures (d + tc) * (ta - t0) * (1.0 + r) >= 0.0
  {
    Nonneg(tm, 1.0 - e);
    Nonneg(d, r);
    Nonneg(d * r, limit - ta);
    Nonneg(d + tc, ta - t0);
    Nonneg((d + tc) * (ta - t0), 1.0 + r);
  }

  lemma AmbientGap(s: Spec, limit: real, ta: real, t0: real)
    requires ValidSpec(s) && Slowness(s) < 1.0 && t0 <= ta <= limit
    ensures Gap(s, limit, ta, State(t0, t0)) <= 0.0
  {
    RatioPositive(s);
    StarTerms(s, limit, ta);
    var r, e, star, y := Ratio(s), Slowness(s), YStar(s, limit, ta), Y(s, State(t0, t0));
    AmbientIdentity(t0, ta, limit, r, s.tauCoil, s.tauMagnet, e, star);
    AmbientTerms(t0, ta, limit, r, s.tauCoil, s.tauMagnet, s.tauMagnet - (1.0 + r) * s.tauCoil, e);
    Unscale(1.0 + r, y, star);
  }

  /** From ambient, no protected program ever takes the magnet past M*. */
  lemma FromAmbientUnderMStar(s: Spec, limit: real, ta: real, t0: real, bs: seq<Beat>)
    requires ValidSpec(s) && Slowness(s) < 1.0 && t0 <= ta <= limit
    requires Protected(s, limit, ta, State(t0, t0), bs)
    ensures After(s, ta, State(t0, t0), bs).magnet <= MStar(s, limit, ta)
  {
    AmbientGap(s, limit, ta, t0);
    MagnetNeverPumped(s, limit, ta, State(t0, t0), bs, 0.0);
    StarIsMStar(s, limit, ta);
  }

  // ---- the formula's exponential against the steps' own factors ------------------------------------

  function Duration(bs: seq<Beat>): real {
    if bs == [] then 0.0 else Duration(bs[..|bs| - 1]) + bs[|bs| - 1].dt
  }

  /** The steps' coarseness: the sum of the squares of the shares they close. */
  function Coarse(s: Spec, bs: seq<Beat>): real
    requires ValidSpec(s)
  {
    if bs == [] then 0.0 else Coarse(s, bs[..|bs| - 1]) + Times(Closed(s, bs[|bs| - 1].dt), Closed(s, bs[|bs| - 1].dt))
  }

  lemma ClosedAdds(s: Spec, a: real, b: real)
    requires ValidSpec(s)
    ensures Closed(s, a + b) == Closed(s, a) + Closed(s, b)
  {
    var i := 1.0 / s.tauMagnet;
    var k := 1.0 + Ratio(s);
    assert k * (a + b) / s.tauMagnet == k * (a + b) * i;
    assert k * a / s.tauMagnet == k * a * i && k * b / s.tauMagnet == k * b * i;
  }

  lemma DecayUnder(c: Curves, x: real)
    requires Lawful(c) && x >= 0.0
    ensures c.decay(x) <= 1.0 - x + x * x
  {
    var f, g := c.decay(x), c.decay(-x);
    DecayInverse(c, x);
    DecayTangent(c, -x);
    ScaleOrder(f, 1.0 + x, g);
    assert f * (1.0 + x) <= 1.0;
    Nonneg(x * x, x);
    assert (1.0 - x + x * x) * (1.0 + x) == 1.0 + x * x * x;
    Unscale(1.0 + x, f, 1.0 - x + x * x);
  }

  lemma FactorTerms(l: real, e: real, q: real, x: real, f: real)
    requires l >= e - q && 0.0 <= x <= 1.0 && q >= 0.0 && 0.0 <= e <= 1.0 && f <= 1.0 - x + x * x
    ensures l * (1.0 - x) >= e * f - (q + x * x)
  {
    Nonneg(l - (e - q), 1.0 - x);
    Nonneg(q, x);
    Nonneg(e, 1.0 - x + x * x - f);
    Nonneg(x, x);
    Nonneg(1.0 - e, x * x);
    assert l * (1.0 - x) - (e * f - (q + x * x))
        == (l - (e - q)) * (1.0 - x) + q * x + e * (1.0 - x + x * x - f) + (1.0 - e) * (x * x);
  }

  /** The steps leave at least what the exponential does, less their coarseness. */
  lemma {:induction false} LeftAtLeast(c: Curves, s: Spec, bs: seq<Beat>)
    requires Lawful(c) && ValidSpec(s)
    requires forall i :: 0 <= i < |bs| ==> bs[i].dt >= 0.0 && Closed(s, bs[i].dt) <= 1.0
    ensures Closed(s, Duration(bs)) >= 0.0 && Coarse(s, bs) >= 0.0
    ensures Left(s, bs) >= c.decay(Closed(s, Duration(bs))) - Coarse(s, bs)
  {
    if bs == [] {
      DecayInverse(c, 0.0);
      assert Closed(s, 0.0) == 0.0;
    } else {
      var l := |bs| - 1;
      LeftAtLeast(c, s, bs[..l]);
      var x := Closed(s, bs[l].dt);
      ClosedNonneg(s, bs[l].dt);
      ClosedAdds(s, Duration(bs[..l]), bs[l].dt);
      DecayAdd(c, Closed(s, Duration(bs[..l])), x);
      DecayAtMostOne(c, Closed(s, Duration(bs[..l])));
      DecayUnder(c, x);
      Nonneg(x, x);
      FactorTerms(Left(s, bs[..l]), c.decay(Closed(s, Duration(bs[..l]))), Coarse(s, bs[..l]), x, c.decay(x));
    }
  }

  /** 1 / (1 + y) is over e^-y, and y of it under one. */
  lemma DecayUnderInverse(c: Curves, y: real)
    requires Lawful(c) && y >= 0.0
    ensures c.decay(y) * (1.0 + y) <= 1.0 && y * c.decay(y) <= 1.0
  {
    var f, g := c.decay(y), c.decay(-y);
    DecayInverse(c, y);
    DecayTangent(c, -y);
    ScaleOrder(f, 1.0 + y, g);
  }

  lemma FactorUnder(x: real, h: real, y: real)
    requires 0.0 <= x <= h <= 0.5 && y == x + 2.0 * h * x
    ensures (1.0 - x) * (1.0 + y) >= 1.0
  {
    Nonneg(h, 1.0 - 2.0 * h);
    Nonneg(h - x, 1.0 + 2.0 * h);
    Nonneg(x, 2.0 * h - x * (1.0 + 2.0 * h));
    assert 2.0 * h - x * (1.0 + 2.0 * h) == (h - x) * (1.0 + 2.0 * h) + h * (1.0 - 2.0 * h);
    assert (1.0 - x) * (1.0 + y) - 1.0 == x * (2.0 * h - x * (1.0 + 2.0 * h));
  }

  /** A short step leaves at least what the exponential does of a slightly longer one. */
  lemma StepLeaves(c: Curves, x: real, h: real, y: real)
    requires Lawful(c) && 0.0 <= x <= h <= 0.5 && y == x + 2.0 * h * x
    ensures c.decay(y) <= 1.0 - x
  {
    Nonneg(h, x);
    DecayUnderInverse(c, y);
    FactorUnder(x, h, y);
    Unscale(1.0 + y, c.decay(y), 1.0 - x);
  }

  lemma Stretched(a: real, b: real, h: real)
    ensures a + b + 2.0 * h * (a + b) == (a + 2.0 * h * a) + (b + 2.0 * h * b)
  {}

  /** One more step. */
  lemma OneMoreOver(c: Curves, h: real, x0: real, y0: real, l: real, x: real, sum: real) returns (y: real)
    requires Lawful(c) && 0.0 <= x <= h <= 0.5 && y0 == x0 + 2.0 * h * x0 && l >= c.decay(y0) && sum == x0 + x
    ensures y == sum + 2.0 * h * sum && Times(l, 1.0 - x) >= c.decay(y)
  {
    var z := x + 2.0 * h * x;
    y := y0 + z;
    Stretched(x0, x, h);
    DecayAdd(c, y0, z);
    StepLeaves(c, x, h, z);
    DecayInverse(c, z);
    DecayInverse(c, y0);
    TimesOver(l, 1.0 - x, c.decay(y0), c.decay(z));
  }

  /** However long the program: its factors leave at least the exponential of a slightly longer time. */
  lemma {:induction false} LeftOverExp(c: Curves, s: Spec, bs: seq<Beat>, h: real) returns (y: real)
    requires Lawful(c) && ValidSpec(s) && h <= 0.5
    requires forall i :: 0 <= i < |bs| ==> bs[i].dt >= 0.0 && Closed(s, bs[i].dt) <= h
    ensures y == Closed(s, Duration(bs)) + 2.0 * h * Closed(s, Duration(bs))
    ensures Closed(s, Duration(bs)) >= 0.0 && Left(s, bs) >= c.decay(y)
  {
    if bs == [] {
      DecayInverse(c, 0.0);
      assert Closed(s, 0.0) == 0.0;
      y := 0.0;
    } else {
      var b, front := bs[|bs| - 1], bs[..|bs| - 1];
      var y0 := LeftOverExp(c, s, front, h);
      ClosedNonneg(s, b.dt);
      ClosedAdds(s, Duration(front), b.dt);
      assert Rest(s, b.dt) == 1.0 - Closed(s, b.dt);
      hide Closed, Times, Lawful, Rest;
      y := OneMoreOver(c, h, Closed(s, Duration(front)), y0, Left(s, front), Closed(s, b.dt), Closed(s, Duration(bs)));
    }
  }

  lemma TimesOver(l: real, r: real, a: real, b: real)
    requires 0.0 <= a <= l && 0.0 <= b <= r
    ensures a * b <= Times(l, r)
  {
    ScaleOrder(b, a, l);
    ScaleOrder(l, b, r);
  }

  /** So at least the exponential's, less twice the largest share of a step, whatever the length. */
  lemma LeftIsClose(c: Curves, s: Spec, bs: seq<Beat>, h: real)
    requires Lawful(c) && ValidSpec(s) && 0.0 <= h <= 0.5
    requires forall i :: 0 <= i < |bs| ==> bs[i].dt >= 0.0 && Closed(s, bs[i].dt) <= h
    ensures Left(s, bs) >= c.decay(Closed(s, Duration(bs))) - 2.0 * h
  {
    hide Closed, Left, Duration;
    var y := LeftOverExp(c, s, bs, h);
    StretchedDecay(c, Closed(s, Duration(bs)), h, y);
  }

  lemma StretchedDecay(c: Curves, x: real, h: real, y: real)
    requires Lawful(c) && x >= 0.0 && h >= 0.0 && y == x + 2.0 * h * x
    ensures c.decay(y) >= c.decay(x) - 2.0 * h
  {
    var z, f := 2.0 * h * x, c.decay(x);
    DecayAdd(c, x, z);
    DecayTangent(c, z);
    DecayInverse(c, x);
    DecayUnderInverse(c, x);
    var k := c.decay(z);
    ScaleOrder(f, 1.0 - z, k);
    CloseTerms(f, x, h, z);
  }

  lemma CloseTerms(f: real, x: real, h: real, z: real)
    requires x * f <= 1.0 && h >= 0.0 && z == 2.0 * h * x
    ensures f * (1.0 - z) >= f - 2.0 * h
  {
    ScaleOrder(2.0 * h, x * f, 1.0);
    assert f * (1.0 - z) == f - 2.0 * h * (x * f);
  }

  /** The most the steps' factors can be under the exponential, no step longer than `dt`. */
  function Slack(s: Spec, bs: seq<Beat>, dt: real): real
    requires ValidSpec(s)
  {
    if Closed(s, dt) <= 0.5 then Min(Coarse(s, bs), 2.0 * Closed(s, dt)) else Coarse(s, bs)
  }

  lemma ClosedOrder(s: Spec, a: real, b: real)
    requires ValidSpec(s) && 0.0 <= a <= b
    ensures 0.0 <= Closed(s, a) <= Closed(s, b)
  {
    ClosedNonneg(s, a);
    ClosedNonneg(s, b - a);
    ClosedAdds(s, a, b - a);
  }

  lemma LeftWithin(c: Curves, s: Spec, bs: seq<Beat>, dt: real)
    requires Lawful(c) && ValidSpec(s) && dt >= 0.0
    requires forall i :: 0 <= i < |bs| ==> 0.0 <= bs[i].dt <= dt && Closed(s, bs[i].dt) <= 1.0
    ensures Slack(s, bs, dt) >= 0.0
    ensures Left(s, bs) >= c.decay(Closed(s, Duration(bs))) - Slack(s, bs, dt)
  {
    LeftAtLeast(c, s, bs);
    ClosedOrder(s, 0.0, dt);
    if Closed(s, dt) <= 0.5 {
      forall i | 0 <= i < |bs| ensures Closed(s, bs[i].dt) <= Closed(s, dt) {
        ClosedOrder(s, bs[i].dt, dt);
      }
      LeftIsClose(c, s, bs, Closed(s, dt));
    }
  }

  lemma Y0Covers(s: Spec, m0: real, ta: real, cLo: real, n: State)
    requires ValidSpec(s) && n.magnet <= m0 && Min(cLo, ta) <= n.coil
    ensures Y(s, n) <= Y0(s, m0, ta, cLo)
  {
    RatioPositive(s);
    Nonneg(Ratio(s), s.tauCoil);
    ScaleOrder(s.tauMagnet, n.magnet, m0);
    ScaleOrder(Ratio(s) * s.tauCoil, Min(cLo, ta), n.coil);
  }

  lemma GapTerms(l: real, e: real, q: real, f: real, g0: real, g: real)
    requires 0.0 <= l && l >= e - q && f <= e && g0 <= g <= 0.0
    ensures Times(l, g0) <= Times(f, g) + Times(q, -g)
  {
    Nonneg(l, g - g0);
    Nonneg(l - (e - q), -g);
    Nonneg(e - f, -g);
    assert f * g + q * -g - l * g0 == l * (g - g0) + (l - (e - q)) * -g + (e - f) * -g;
  }

  lemma LeftOver(c: Curves, s: Spec, bs: seq<Beat>, dt: real, d: real) returns (e: real)
    requires Lawful(c) && ValidSpec(s) && Duration(bs) <= d && dt >= 0.0
    requires forall i :: 0 <= i < |bs| ==> 0.0 <= bs[i].dt <= dt && Closed(s, bs[i].dt) <= 1.0
    ensures Left(s, bs) >= e - Slack(s, bs, dt) && c.decay(Closed(s, d)) <= e
  {
    LeftWithin(c, s, bs, dt);
    ClosedAdds(s, Duration(bs), d - Duration(bs));
    ClosedNonneg(s, d - Duration(bs));
    DecayAntitone(c, Closed(s, Duration(bs)), Closed(s, d));
    e := c.decay(Closed(s, Duration(bs)));
  }

  /** From a gap of at most `g`, the interval at most `d`, no step longer than `dt`: the gap a
      protected program leaves. */
  lemma SavedGap(c: Curves, s: Spec, limit: real, ta: real, dt: real, d: real, n: State, bs: seq<Beat>, g: real)
    requires Lawful(c) && ValidSpec(s) && Slowness(s) < 1.0 && Protected(s, limit, ta, n, bs) && StepsWithin(bs, dt)
    requires Duration(bs) <= d && Gap(s, limit, ta, n) <= g <= 0.0
    ensures Gap(s, limit, ta, After(s, ta, n, bs)) <= Times(c.decay(Closed(s, d)), g) + Times(Slack(s, bs, dt), -g)
  {
    var e := LeftOver(c, s, bs, dt, d);
    ProgramContracts(s, limit, ta, n, bs);
    GapTerms(Left(s, bs), e, Slack(s, bs, dt), c.decay(Closed(s, d)), Gap(s, limit, ta, n), g);
  }

  lemma DurationNonneg(bs: seq<Beat>)
    requires forall i :: 0 <= i < |bs| ==> bs[i].dt >= 0.0
    ensures Duration(bs) >= 0.0
  {
    if bs != [] { DurationNonneg(bs[..|bs| - 1]); }
  }

  predicate StepsWithin(bs: seq<Beat>, dt: real) {
    dt >= 0.0 && forall i :: 0 <= i < |bs| ==> bs[i].dt <= dt
  }

  /** Steps of at most `dt` are fine enough for the formula's margin from the gap `g`: for short ones
      a matter of `dt` and the configuration alone, however many there are. */
  ghost predicate FineEnough(s: Spec, bs: seq<Beat>, dt: real, g: real)
    requires ValidSpec(s)
  {
    StepsWithin(bs, dt) && Times(Slack(s, bs, dt), -g) <= MAGNET_MARGIN_K * s.tauMagnet
  }

  /** The gap the formula starts from. */
  function SavedStart(s: Spec, limit: real, ta: real, cLo: real, m0: real): real
    requires ValidSpec(s)
  {
    Y0(s, m0, ta, cLo) - YStar(s, limit, ta)
  }

  /** A protected program from at most the saved magnet, no longer than the interval when one is
      given, and fine enough for the margin, ends no further from the star than the formula. */
  lemma GapUnderBound(c: Curves, s: Spec, limit: real, ta: real, cLo: real, m0: real, d: Option<real>, n: State,
                      bs: seq<Beat>, dt: real, g: real)
    requires Lawful(c) && ValidSpec(s) && Slowness(s) < 1.0 && Protected(s, limit, ta, n, bs)
    requires Gap(s, limit, ta, n) <= g && g == SavedStart(s, limit, ta, cLo, m0)
    requires d.Some? ==> Duration(bs) <= d.value && FineEnough(s, bs, dt, g)
    ensures Y(s, After(s, ta, n, bs)) <= BoundY(c, s, limit, ta, cLo, Some(m0), d) + MAGNET_MARGIN_K * s.tauMagnet
  {
    if g >= 0.0 || d.None? {
      ProgramContracts(s, limit, ta, n, bs);
      ShareSign(Left(s, bs), Gap(s, limit, ta, n), Max(g, 0.0));
    } else {
      DurationNonneg(bs);
      SavedGap(c, s, limit, ta, dt, d.value, n, bs, g);
    }
  }

  /** So its magnet is under the bound. */
  lemma MagnetUnderBound(c: Curves, s: Spec, limit: real, ta: real, cLo: real, m0: real, d: Option<real>, n: State,
                         bs: seq<Beat>, dt: real)
    requires Lawful(c) && ValidSpec(s) && Slowness(s) < 1.0 && Protected(s, limit, ta, n, bs)
    requires n.magnet <= m0 && Min(cLo, ta) <= n.coil
    requires d.Some? ==> Duration(bs) <= d.value && FineEnough(s, bs, dt, SavedStart(s, limit, ta, cLo, m0))
    ensures After(s, ta, n, bs).magnet <= MagnetBoundIn(c, s, limit, ta, cLo, Some(m0), d)
  {
    SavedStartCovers(s, limit, ta, cLo, m0, n);
    GapUnderBound(c, s, limit, ta, cLo, m0, d, n, bs, dt, SavedStart(s, limit, ta, cLo, m0));
    EndUnderBound(c, s, limit, ta, cLo, m0, d, n, bs);
  }

  /** At steps of at most `dt` any interval is covered that the configuration is fine enough for. */
  lemma ShortStepsUnderBound(c: Curves, s: Spec, limit: real, ta: real, cLo: real, m0: real, d: real, n: State,
                             bs: seq<Beat>, dt: real)
    requires Lawful(c) && ValidSpec(s) && Slowness(s) < 1.0 && Protected(s, limit, ta, n, bs)
    requires n.magnet <= m0 && Min(cLo, ta) <= n.coil && Duration(bs) <= d && StepsWithin(bs, dt)
    requires Closed(s, dt) <= 0.5
    requires Times(2.0 * Closed(s, dt), -SavedStart(s, limit, ta, cLo, m0)) <= MAGNET_MARGIN_K * s.tauMagnet
    ensures After(s, ta, n, bs).magnet <= MagnetBoundIn(c, s, limit, ta, cLo, Some(m0), Some(d))
  {
    var g, q := SavedStart(s, limit, ta, cLo, m0), Slack(s, bs, dt);
    LeftWithin(c, s, bs, dt);
    assert 0.0 <= q <= 2.0 * Closed(s, dt);
    hide Protected, Closed, Slack, After, MagnetBoundIn, SavedStart, Duration, Slowness;
    MarginCovers(q, 2.0 * Closed(s, dt), g, MAGNET_MARGIN_K * s.tauMagnet);
    MagnetUnderBound(c, s, limit, ta, cLo, m0, Some(d), n, bs, dt);
  }

  lemma MarginCovers(q: real, p: real, g: real, top: real)
    requires 0.0 <= q <= p && Times(p, -g) <= top && top >= 0.0
    ensures Times(q, -g) <= top
  {
    if g <= 0.0 {
      ScaleOrder(-g, q, p);
    } else {
      Nonneg(q, g);
      assert q * -g == -(q * g);
    }
  }

  lemma SavedStartCovers(s: Spec, limit: real, ta: real, cLo: real, m0: real, n: State)
    requires ValidSpec(s) && n.magnet <= m0 && Min(cLo, ta) <= n.coil
    ensures Gap(s, limit, ta, n) <= SavedStart(s, limit, ta, cLo, m0)
  {
    Y0Covers(s, m0, ta, cLo, n);
  }

  lemma EndUnderBound(c: Curves, s: Spec, limit: real, ta: real, cLo: real, m0: real, d: Option<real>, n: State,
                      bs: seq<Beat>)
    requires ValidSpec(s) && Slowness(s) < 1.0 && Protected(s, limit, ta, n, bs)
    requires Y(s, After(s, ta, n, bs)) <= BoundY(c, s, limit, ta, cLo, Some(m0), d) + MAGNET_MARGIN_K * s.tauMagnet
    ensures After(s, ta, n, bs).magnet <= MagnetBoundIn(c, s, limit, ta, cLo, Some(m0), d)
  {
    AtTheEnd(s, limit, ta, n, bs, BoundY(c, s, limit, ta, cLo, Some(m0), d), MAGNET_MARGIN_K);
  }

  /** And without a saved magnet: after any protected program from ambient. */
  lemma UnknownMagnetUnderBound(c: Curves, s: Spec, limit: real, ta: real, cLo: real, d: Option<real>, t0: real,
                                bs: seq<Beat>)
    requires Lawful(c) && ValidSpec(s) && Slowness(s) < 1.0 && t0 <= ta <= limit
    requires Protected(s, limit, ta, State(t0, t0), bs)
    ensures After(s, ta, State(t0, t0), bs).magnet <= MagnetBoundIn(c, s, limit, ta, cLo, None, d)
  {
    FromAmbientUnderMStar(s, limit, ta, t0, bs);
    StarIsMStar(s, limit, ta);
  }

  // ---- the most energy a protected coil can have taken ---------------------------------------------

  function Energy(bs: seq<Beat>): real {
    if bs == [] then 0.0 else Energy(bs[..|bs| - 1]) + Times(bs[|bs| - 1].watts, bs[|bs| - 1].dt)
  }

  /** `protected_energy`. */
  function ProtectedEnergy(s: Spec, limit: real, ta: real, len: real): real
    requires ValidSpec(s)
  {
    if !(len > 0.0) then 0.0
    else
      var rise := Max(limit - ta, 0.0);
      (s.tauCoil * rise + len * rise) / s.trCoil
  }

  /** A program of short steps and no negative power. */
  ghost predicate Gentle(s: Spec, bs: seq<Beat>) {
    forall i :: 0 <= i < |bs| ==>
      bs[i].watts >= 0.0 && 0.0 <= bs[i].dt <= s.tauCoil && bs[i].dt <= s.tauMagnet
  }

  lemma WarmTerms(x: real, t: real, ta: real, dt: real, tau: real)
    requires tau > 0.0 && 0.0 <= dt <= tau && x >= ta && t >= ta
    ensures Toward(x, t, dt, tau) >= ta
  {
    var z := dt / tau;
    DivideOrder(dt, 1.0, tau);
    DivideTimes(dt, tau);
    if z < 0.0 { ScaleStrict(tau, z, 0.0); }
    Nonneg(1.0 - z, x - ta);
    Nonneg(z, t - ta);
    assert x + z * (t - x) - ta == (1.0 - z) * (x - ta) + z * (t - ta);
  }

  lemma StepStaysWarm(s: Spec, ta: real, lo: real, n: State, b: Beat)
    requires ValidSpec(s) && b.watts >= 0.0 && 0.0 <= b.dt <= s.tauCoil && b.dt <= s.tauMagnet
    requires lo <= ta && n.coil >= lo && n.magnet >= lo
    ensures Next(s, ta, n, b).coil >= lo && Next(s, ta, n, b).magnet >= lo
  {
    Nonneg(b.watts, s.trCoil);
    Nonneg(b.watts, s.trMagnet);
    WarmTerms(n.coil, n.magnet + b.watts * s.trCoil, lo, b.dt, s.tauCoil);
    WarmTerms(n.magnet, ta + b.watts * s.trMagnet, lo, b.dt, s.tauMagnet);
  }

  /** No node goes under what both started over, if that is no hotter than the ambient. */
  lemma {:induction false} StaysWarm(s: Spec, ta: real, lo: real, n: State, bs: seq<Beat>)
    requires ValidSpec(s) && Gentle(s, bs) && lo <= ta && n.coil >= lo && n.magnet >= lo
    ensures After(s, ta, n, bs).coil >= lo && After(s, ta, n, bs).magnet >= lo
  {
    if bs != [] {
      var l := |bs| - 1;
      StaysWarm(s, ta, lo, n, bs[..l]);
      StepStaysWarm(s, ta, lo, After(s, ta, n, bs[..l]), bs[l]);
    }
  }

  /** What the coil's rise from `c0` to `c` stores. */
  function Stored(s: Spec, c0: real, c: real): real {
    s.tauCoil * (c - c0)
  }

  lemma CoilMoves(c: real, t: real, dt: real, tau: real)
    requires tau > 0.0
    ensures tau * (Toward(c, t, dt, tau) - c) == dt * (t - c)
  {
    var z := dt / tau;
    DivideTimes(dt, tau);
    assert tau * (z * (t - c)) == z * tau * (t - c);
  }

  /** A step's energy is what it stores and what the coil loses to a magnet over the ambient. */
  lemma StepEnergy(s: Spec, ta: real, n: State, b: Beat, limit: real)
    requires ValidSpec(s) && b.dt >= 0.0 && n.coil <= limit && n.magnet >= ta
    ensures Times(Times(b.watts, b.dt), s.trCoil)
         <= Stored(s, n.coil, Next(s, ta, n, b).coil) + Times(b.dt, limit - ta)
  {
    CoilMoves(n.coil, n.magnet + b.watts * s.trCoil, b.dt, s.tauCoil);
    LossTerms(b.dt, b.watts, s.trCoil, n.coil, n.magnet, limit, ta);
  }

  lemma LossTerms(dt: real, w: real, rc: real, c: real, m: real, limit: real, ta: real)
    requires dt >= 0.0 && c <= limit && m >= ta
    ensures w * dt * rc <= dt * (m + w * rc - c) + dt * (limit - ta)
  {
    Nonneg(dt, (limit - ta) - (c - m));
    assert dt * (m + w * rc - c) + dt * (limit - ta) - w * dt * rc == dt * ((limit - ta) - (c - m));
  }

  /** The energy telescopes: what the coil stores, and what it loses to its magnet. */
  lemma {:induction false} EnergyTelescopes(s: Spec, limit: real, ta: real, n: State, bs: seq<Beat>)
    requires ValidSpec(s) && Protected(s, limit, ta, n, bs) && Gentle(s, bs) && n.coil >= ta && n.magnet >= ta
    ensures Times(Energy(bs), s.trCoil)
         <= Stored(s, n.coil, After(s, ta, n, bs).coil) + Times(Duration(bs), limit - ta)
  {
    if bs != [] {
      var l := |bs| - 1;
      ProtectedFront(s, limit, ta, n, bs);
      EnergyTelescopes(s, limit, ta, n, bs[..l]);
      StaysWarm(s, ta, ta, n, bs[..l]);
      var mid := After(s, ta, n, bs[..l]);
      StepEnergy(s, ta, mid, bs[l], limit);
      ShareAdds(Energy(bs[..l]), Times(bs[l].watts, bs[l].dt), s.trCoil);
      ShareAdds(Duration(bs[..l]), bs[l].dt, limit - ta);
      StoredAdds(s, n.coil, mid.coil, Next(s, ta, mid, bs[l]).coil);
    }
  }

  lemma ShareAdds(a: real, b: real, g: real)
    ensures Times(a + b, g) == Times(a, g) + Times(b, g)
  {}

  lemma StoredAdds(s: Spec, x: real, y: real, z: real)
    ensures Stored(s, x, z) == Stored(s, x, y) + Stored(s, y, z)
  {}

  /** A coil kept at or under its limit from over the ambient takes at most the protected energy. */
  lemma EnergyUnderProtected(s: Spec, limit: real, ta: real, n: State, bs: seq<Beat>, len: real)
    requires ValidSpec(s) && Protected(s, limit, ta, n, bs) && Gentle(s, bs) && n.coil >= ta && n.magnet >= ta
    requires Duration(bs) <= len && len > 0.0
    ensures Energy(bs) <= ProtectedEnergy(s, limit, ta, len)
  {
    EnergyTelescopes(s, limit, ta, n, bs);
    assert bs[..|bs|] == bs && bs[..0] == [];
    assert n.coil <= limit by { assert After(s, ta, n, bs[..0]) == n; }
    ProtectedTerms(s, limit, ta, n.coil, After(s, ta, n, bs).coil, Duration(bs), len, Energy(bs));
  }

  lemma ProtectedTerms(s: Spec, limit: real, ta: real, c0: real, c: real, d: real, len: real, e: real)
    requires ValidSpec(s) && ta <= c0 <= limit && c <= limit && d <= len && len > 0.0
    requires Times(e, s.trCoil) <= Stored(s, c0, c) + Times(d, limit - ta)
    ensures e <= ProtectedEnergy(s, limit, ta, len)
  {
    var rise := limit - ta;
    ScaleOrder(s.tauCoil, c - c0, rise);
    ScaleOrder(rise, d, len);
    var y := s.tauCoil * rise + len * rise;
    assert e * s.trCoil <= y;
    QuotientOver(e, y, s.trCoil);
  }
}
