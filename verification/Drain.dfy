/** Time at full scale, cut (src/model.rs, `heat_temps`): the program steps any time in sub-steps of at
    most MAX_SUB_DT, the coil of each following the magnet of its end. While both nodes heat, a time cut
    anyhow leaves them no hotter than whole sub-steps of MAX_SUB_DT. */
module Drains {
  import opened Config
  import opened Curves
  import opened Reals
  import opened Thermal

  /** A sub-step: its length and what the coil got. */
  datatype Slice = Slice(h: real, watts: real)

  function Lasts(slices: seq<Slice>): real {
    if slices == [] then 0.0 else Lasts(slices[..|slices| - 1]) + slices[|slices| - 1].h
  }

  function Beats(c: Curves, s: Spec, ta: real, slices: seq<Slice>): (bs: seq<Beat>)
    requires ValidSpec(s)
  {
    seq(|slices|, i requires 0 <= i < |slices| => Beat(KernelOf(c, s, slices[i].h, ta), slices[i].watts))
  }

  /** Sub-steps as the program takes them, each with anything up to full scale. */
  ghost predicate CutWithin(full: real, slices: seq<Slice>) {
    forall i :: 0 <= i < |slices| ==> 0.0 < slices[i].h <= MAX_SUB_DT && 0.0 <= slices[i].watts <= full
  }

  /** A whole sub-step. */
  function WholeKernel(c: Curves, s: Spec, ta: real): Kernel
    requires ValidSpec(s)
  {
    KernelOf(c, s, MAX_SUB_DT, ta)
  }

  // ---- one and two sub-steps at full scale ---------------------------------------------------------

  /** The nodes after `h` seconds at full scale. */
  function Hold(c: Curves, s: Spec, ta: real, full: real, h: real, n: Nodes): Nodes
    requires ValidSpec(s)
  {
    Step(KernelOf(c, s, h, ta), full, n)
  }

  /** Both nodes are under where full scale holds them. */
  predicate Heating(s: Spec, ta: real, full: real, n: Nodes) {
    && n.magnet <= ta + full * s.trMagnet
    && n.coil <= n.magnet + full * s.trCoil
  }

  lemma LagTwice(x: real, y: real, t: real, a: real, b: real, ab: real)
    requires y == Lag(x, t, 1.0 - a) && ab == a * b
    ensures Lag(y, t, 1.0 - b) == Lag(x, t, 1.0 - ab)
  {
    assert t - y == (t - x) * a;
    assert (t - x) * a * b == (t - x) * (a * b);
  }

  /** A lag toward what is over it. */
  lemma LagRises(x: real, t: real, k: real)
    requires 0.0 < k < 1.0 && x <= t
    ensures x <= Lag(x, t, k) <= t
  {
    Nonneg(t - x, k);
    Nonneg(t - x, 1.0 - k);
    assert Lag(x, t, k) - x == (t - x) * k && t - Lag(x, t, k) == (t - x) * (1.0 - k);
  }

  /** Where full scale holds the magnet, and the coil over it. */
  function SteadyMagnet(s: Spec, ta: real, full: real): real { ta + full * s.trMagnet }

  function Rise(s: Spec, full: real): real { full * s.trCoil }

  /** A full sub-step in its two factors. */
  lemma HoldIs(c: Curves, s: Spec, ta: real, full: real, h: real, n: Nodes) returns (f: real, g: real)
    requires Lawful(c) && ValidSpec(s) && h > 0.0
    ensures f == c.decay(h / s.tauCoil) && g == c.decay(h / s.tauMagnet) && 0.0 < f < 1.0 && 0.0 < g < 1.0
    ensures var m := Lag(n.magnet, SteadyMagnet(s, ta, full), 1.0 - g);
      Hold(c, s, ta, full, h, n) == Nodes(Lag(n.coil, m + Rise(s, full), 1.0 - f), m)
  {
    f, g := c.decay(h / s.tauCoil), c.decay(h / s.tauMagnet);
    QuotientPositive(h, s.tauCoil);
    QuotientPositive(h, s.tauMagnet);
    DecayPositive(c, h / s.tauCoil);
    DecayPositive(c, h / s.tauMagnet);
  }

  /** Heating, both nodes rise and go on heating. */
  lemma HoldRises(c: Curves, s: Spec, ta: real, full: real, h: real, n: Nodes)
    requires Lawful(c) && ValidSpec(s) && h > 0.0 && full >= 0.0 && Heating(s, ta, full, n)
    ensures Below(n, Hold(c, s, ta, full, h, n)) && Heating(s, ta, full, Hold(c, s, ta, full, h, n))
  {
    var f, g := HoldIs(c, s, ta, full, h, n);
    assert n.magnet <= SteadyMagnet(s, ta, full) && n.coil <= n.magnet + Rise(s, full);
    LagRises(n.magnet, SteadyMagnet(s, ta, full), 1.0 - g);
    LagRises(n.coil, Lag(n.magnet, SteadyMagnet(s, ta, full), 1.0 - g) + Rise(s, full), 1.0 - f);
    hide Lag, Hold;
  }

  /** Cut in two, the sub-step leaves the same magnet and no hotter a coil: the coil of its first part
      follows the magnet of that part, not of the end. */
  lemma HoldSplits(c: Curves, s: Spec, ta: real, full: real, a: real, b: real, n: Nodes)
    requires Lawful(c) && ValidSpec(s) && a > 0.0 && b > 0.0 && full >= 0.0 && Heating(s, ta, full, n)
    ensures Below(Hold(c, s, ta, full, b, Hold(c, s, ta, full, a, n)), Hold(c, s, ta, full, a + b, n))
  {
    var top, over := SteadyMagnet(s, ta, full), Rise(s, full);
    assert n.magnet <= top;
    hide Hold, Lag, SteadyMagnet, Rise, Heating, Lawful, Times;
    var f1, g1 := HoldIs(c, s, ta, full, a, n);
    var f2, g2 := HoldIs(c, s, ta, full, b, Hold(c, s, ta, full, a, n));
    var f, g := HoldIs(c, s, ta, full, a + b, n);
    DecayAdds(c, a, b, s.tauCoil);
    DecayAdds(c, a, b, s.tauMagnet);
    SplitTerms(n, top, over, f1, g1, f2, g2, f, g);
  }

  lemma SplitTerms(n: Nodes, top: real, over: real, f1: real, g1: real, f2: real, g2: real, f: real, g: real)
    requires n.magnet <= top && f == Times(f1, f2) && g == Times(g1, g2)
    requires 0.0 < f1 < 1.0 && 0.0 < f2 < 1.0 && 0.0 < g1 < 1.0 && 0.0 < g2 < 1.0
    ensures var m1, m := Lag(n.magnet, top, 1.0 - g1), Lag(n.magnet, top, 1.0 - g);
      && Lag(m1, top, 1.0 - g2) == m
      && Lag(Lag(n.coil, m1 + over, 1.0 - f1), Lag(m1, top, 1.0 - g2) + over, 1.0 - f2)
           <= Lag(n.coil, m + over, 1.0 - f)
  {
    hide Lag;
    var m1, m := Lag(n.magnet, top, 1.0 - g1), Lag(n.magnet, top, 1.0 - g);
    LagTwice(n.magnet, m1, top, g1, g2, g);
    LagRises(n.magnet, top, 1.0 - g1);
    LagRises(m1, top, 1.0 - g2);
    var c1, d1 := Lag(n.coil, m1 + over, 1.0 - f1), Lag(n.coil, m + over, 1.0 - f1);
    LagMonotone(n.coil, n.coil, m1 + over, m + over, 1.0 - f1);
    LagMonotone(c1, d1, m + over, m + over, 1.0 - f2);
    LagTwice(n.coil, d1, m + over, f1, f2, f);
  }

  lemma DecayAdds(c: Curves, a: real, b: real, tau: real)
    requires Lawful(c) && tau > 0.0
    ensures c.decay((a + b) / tau) == Times(c.decay(a / tau), c.decay(b / tau))
  {
    DecayAdd(c, a / tau, b / tau);
    assert a / tau + b / tau == (a + b) / tau;
  }

  // ---- the longer one later, or earlier ------------------------------------------------------------

  /** A quick lag and a slow one over the same time, either way. */
  lemma Quicker(c: Curves, tau: real, sigma: real, x: real)
    requires Lawful(c) && 0.0 < tau <= sigma
    ensures tau * (1.0 - c.decay(x / tau)) <= sigma * (1.0 - c.decay(x / sigma))
  {
    var th, z := tau / sigma, x / tau;
    DivideTimes(tau, sigma);
    DivideOrder(tau, 1.0, sigma);
    QuotientPositive(tau, sigma);
    DivideTimes(x, tau);
    DivideTimes(x, sigma);
    assert x / sigma * sigma == th * z * sigma by { assert th * z * sigma == z * (th * sigma); }
    Cancel(sigma, x / sigma, th * z);
    DecayUnderChord(c, th, z, x / sigma);
    var q, s := c.decay(z), c.decay(x / sigma);
    ScaleOrder(sigma, s, 1.0 - th * (1.0 - q));
    assert sigma * (1.0 - th * (1.0 - q)) == sigma - (th * sigma) * (1.0 - q);
  }

  /** The same undone: the quick lag's inverse grows by more. */
  lemma QuickerBack(c: Curves, tau: real, sigma: real, x: real)
    requires Lawful(c) && 0.0 < tau <= sigma
    ensures var q, s := c.decay(x / tau), c.decay(x / sigma);
      sigma * Times(q, 1.0 - s) <= tau * Times(s, 1.0 - q)
  {
    Quicker(c, tau, sigma, -x);
    assert -x / tau == -(x / tau) && -x / sigma == -(x / sigma);
    DecayInverse(c, x / tau);
    DecayInverse(c, x / sigma);
    BackTerms(tau, sigma, c.decay(x / tau), c.decay(x / sigma), c.decay(-(x / tau)), c.decay(-(x / sigma)));
  }

  lemma BackTerms(tau: real, sigma: real, q: real, s: real, qi: real, si: real)
    requires qi * q == 1.0 && si * s == 1.0 && q > 0.0 && s > 0.0 && tau * (1.0 - qi) <= sigma * (1.0 - si)
    ensures sigma * Times(q, 1.0 - s) <= tau * Times(s, 1.0 - q)
  {
    Positive(q, s);
    var u, v := tau * (1.0 - qi), sigma * (1.0 - si);
    ScaleOrder(q * s, u, v);
    assert q * s * u == tau * (s * (q - qi * q));
    assert q * s * v == sigma * (q * (s - si * s));
  }

  /** What the longer sub-step costs at the quick node's end, and saves at the slow one's. */
  lemma Trade(c: Curves, tau: real, sigma: real, x: real, r: real, rr: real)
    requires Lawful(c) && 0.0 < tau <= sigma && x >= 0.0 && 0.0 <= r <= rr
    ensures var q, s := c.decay(x / tau), c.decay(x / sigma);
      Times(Times(q, 1.0 - s), 1.0 - c.decay(r / tau)) <= Times(Times(s, 1.0 - q), 1.0 - c.decay(rr / sigma))
  {
    QuickerBack(c, tau, sigma, x);
    Quicker(c, tau, sigma, r);
    QuotientOrder(r, rr, sigma);
    QuotientNonneg(x, tau);
    QuotientNonneg(x, sigma);
    QuotientNonneg(rr, sigma);
    DecayAntitone(c, r / sigma, rr / sigma);
    DecayAtMostOne(c, x / tau);
    DecayAtMostOne(c, x / sigma);
    DecayAtMostOne(c, rr / sigma);
    var q, s := c.decay(x / tau), c.decay(x / sigma);
    Nonneg(q, 1.0 - s);
    TradeTerms(tau, sigma, Times(q, 1.0 - s), Times(s, 1.0 - q), 1.0 - c.decay(r / tau), 1.0 - c.decay(r / sigma),
               1.0 - c.decay(rr / sigma));
  }

  lemma TradeTerms(tau: real, sigma: real, a: real, b: real, u: real, v: real, w: real)
    requires tau > 0.0 && sigma > 0.0 && a >= 0.0 && sigma * a <= tau * b && tau * u <= sigma * v && v <= w && w >= 0.0
    ensures Times(a, u) <= Times(b, w)
  {
    ScaleOrder(sigma, v, w);
    var tu, sw := tau * u, sigma * w;
    ScaleOrder(a, tu, sw);
    var sa, tb := sigma * a, tau * b;
    ScaleOrder(w, sa, tb);
    assert a * tu == a * u * tau && a * sw == sa * w && tb * w == b * w * tau;
    Unscale(tau, a * u, b * w);
  }

  /** Two sub-steps: what both leave but for what the first coil did not see of the second's magnet. */
  lemma PairMagnet(m: real, top: real, ga: real, gb: real, g: real)
    requires g == Times(ga, gb)
    ensures var m1 := Lag(m, top, 1.0 - ga); var m2 := Lag(m1, top, 1.0 - gb);
      m2 == top - Times(top - m, g) && m2 - m1 == Times(top - m, ga - g)
  {
    var u := top - m;
    assert u * ga * gb == u * (ga * gb);
    assert top - Lag(m, top, 1.0 - ga) == u * ga;
  }

  lemma PairCoil(x: real, t: real, e: real, fa: real, fb: real, f: real)
    requires f == Times(fa, fb)
    ensures Lag(Lag(x, t - e, 1.0 - fa), t, 1.0 - fb) == t - Times(t - x, f) - Times(e, fb - f)
  {
    var y := Lag(x, t - e, 1.0 - fa);
    assert t - y == e * (1.0 - fa) + (t - x) * fa;
    assert (t - y) * fb == e * (fb - fa * fb) + (t - x) * (fa * fb);
  }

  /** Two ways to cut the same time in two: the coil that sees less too early ends no hotter. */
  lemma PairsCompare(n: Nodes, top: real, over: real, fa: real, ga: real, fb: real, gb: real,
                     fc: real, gc: real, fd: real, gd: real, f: real, g: real)
    requires n.magnet <= top && f == Times(fa, fb) == Times(fc, fd) && g == Times(ga, gb) == Times(gc, gd)
    requires Times(gc - g, fd - f) <= Times(ga - g, fb - f)
    ensures var m1, k1 := Lag(n.magnet, top, 1.0 - ga), Lag(n.magnet, top, 1.0 - gc);
      var m2, k2 := Lag(m1, top, 1.0 - gb), Lag(k1, top, 1.0 - gd);
      && m2 == k2
      && Lag(Lag(n.coil, m1 + over, 1.0 - fa), m2 + over, 1.0 - fb)
           <= Lag(Lag(n.coil, k1 + over, 1.0 - fc), k2 + over, 1.0 - fd)
  {
    var m1, k1 := Lag(n.magnet, top, 1.0 - ga), Lag(n.magnet, top, 1.0 - gc);
    var m2, k2 := Lag(m1, top, 1.0 - gb), Lag(k1, top, 1.0 - gd);
    PairMagnet(n.magnet, top, ga, gb, g);
    PairMagnet(n.magnet, top, gc, gd, g);
    hide Lag, Times;
    assert m2 + over - (m2 - m1) == m1 + over && k2 + over - (k2 - k1) == k1 + over;
    PairCoil(n.coil, m2 + over, m2 - m1, fa, fb, f);
    PairCoil(n.coil, k2 + over, k2 - k1, fc, fd, f);
    LossTerms(top - n.magnet, m2 - m1, k2 - k1, ga - g, gc - g, fb - f, fd - f);
  }

  lemma LossTerms(u: real, e: real, d: real, a: real, b: real, p: real, q: real)
    requires u >= 0.0 && e == Times(u, a) && d == Times(u, b) && Times(b, q) <= Times(a, p)
    ensures Times(d, q) <= Times(e, p)
  {
    var x, y := b * q, a * p;
    ScaleOrder(u, x, y);
    assert d * q == u * x && e * p == u * y;
  }

  lemma LaterLoss(fr: real, fx: real, fk: real, gr: real, gx: real, gk: real, f: real, g: real)
    requires fr > 0.0 && fx > 0.0 && fk > 0.0 && gr > 0.0 && gx > 0.0 && gk > 0.0
    requires f == Times(Times(fr, fx), fk) && g == Times(Times(gr, gx), gk)
    requires Times(Times(fx, 1.0 - gx), 1.0 - fr) <= Times(Times(gx, 1.0 - fx), 1.0 - gk)
    ensures Times(gr - g, Times(fk, fx) - f) <= Times(Times(gr, gx) - g, fk - f)
  {
    var a, b := fx * (1.0 - fr) * (1.0 - gx * gk), gx * (1.0 - gk) * (1.0 - fr * fx);
    LaterTerms(fr, fx, gx, gk, fx * (1.0 - gx) * (1.0 - fr), gx * (1.0 - fx) * (1.0 - gk));
    Positive(fk, gr);
    ScaleOrder(fk * gr, a, b);
    EarlierLoss(fr, fx, fk, gr, gx, gk, f, g, a);
    OtherLoss(fr, fx, fk, gr, gx, gk, f, g, b);
  }

  lemma EarlierLoss(fr: real, fx: real, fk: real, gr: real, gx: real, gk: real, f: real, g: real, a: real)
    requires f == Times(Times(fr, fx), fk) && g == Times(Times(gr, gx), gk)
    requires a == fx * (1.0 - fr) * (1.0 - gx * gk)
    ensures Times(gr - g, Times(fk, fx) - f) == fk * gr * a
  {
    var x, y := gr - g, fk * fx - f;
    assert x == gr * (1.0 - gx * gk) && y == fk * (fx * (1.0 - fr));
    var u, v := 1.0 - gx * gk, fx * (1.0 - fr);
    assert a == u * v;
    ProductOfTwo(gr, u, fk, v);
  }

  lemma OtherLoss(fr: real, fx: real, fk: real, gr: real, gx: real, gk: real, f: real, g: real, b: real)
    requires f == Times(Times(fr, fx), fk) && g == Times(Times(gr, gx), gk)
    requires b == gx * (1.0 - gk) * (1.0 - fr * fx)
    ensures Times(Times(gr, gx) - g, fk - f) == fk * gr * b
  {
    var x, y := gr * gx - g, fk - f;
    assert x == gr * (gx * (1.0 - gk)) && y == fk * (1.0 - fr * fx);
    var u, v := gx * (1.0 - gk), 1.0 - fr * fx;
    assert b == u * v;
    ProductOfTwo(gr, u, fk, v);
  }

  lemma ProductOfTwo(a: real, u: real, b: real, v: real)
    ensures (a * u) * (b * v) == b * a * (u * v)
  {}

  lemma LaterTerms(fr: real, fx: real, gx: real, gk: real, lo: real, hi: real)
    requires lo == fx * (1.0 - gx) * (1.0 - fr) && hi == gx * (1.0 - fx) * (1.0 - gk) && lo <= hi
    ensures fx * (1.0 - fr) * (1.0 - gx * gk) <= gx * (1.0 - gk) * (1.0 - fr * fx)
  {
    assert gx * (1.0 - gk) * (1.0 - fr * fx) - fx * (1.0 - fr) * (1.0 - gx * gk) == hi - lo;
  }

  /** A coil no slower than the magnet ends no cooler with the longer sub-step later. */
  lemma HoldLater(c: Curves, s: Spec, ta: real, full: real, r: real, x: real, rr: real, n: Nodes)
    requires Lawful(c) && ValidSpec(s) && 0.0 < r <= rr && x > 0.0 && full >= 0.0 && Heating(s, ta, full, n)
    requires s.tauCoil <= s.tauMagnet
    ensures Below(Hold(c, s, ta, full, rr, Hold(c, s, ta, full, r + x, n)),
                  Hold(c, s, ta, full, rr + x, Hold(c, s, ta, full, r, n)))
  {
    assert n.magnet <= SteadyMagnet(s, ta, full);
    hide Hold, Lag, SteadyMagnet, Rise, Heating, Lawful, Times;
    var fr, gr := HoldIs(c, s, ta, full, r, n);
    var fk, gk := HoldIs(c, s, ta, full, rr, Hold(c, s, ta, full, r + x, n));
    var fx, gx := HoldIs(c, s, ta, full, x, n);
    var fa, ga := HoldIs(c, s, ta, full, r + x, n);
    var fd, gd := HoldIs(c, s, ta, full, rr + x, Hold(c, s, ta, full, r, n));
    DecayAdds(c, r, x, s.tauCoil);
    DecayAdds(c, r, x, s.tauMagnet);
    DecayAdds(c, rr, x, s.tauCoil);
    DecayAdds(c, rr, x, s.tauMagnet);
    Trade(c, s.tauCoil, s.tauMagnet, x, r, rr);
    var f, g := Times(Times(fr, fx), fk), Times(Times(gr, gx), gk);
    LaterLoss(fr, fx, fk, gr, gx, gk, f, g);
    TimesSwaps(fr, fx, fk);
    TimesSwaps(gr, gx, gk);
    PairsCompare(n, SteadyMagnet(s, ta, full), Rise(s, full), fa, ga, fk, gk, fr, gr, fd, gd, f, g);
  }

  lemma TimesSwaps(r: real, x: real, k: real)
    ensures Times(Times(r, x), k) == Times(r, Times(k, x)) == Times(Times(k, x), r) == Times(k, Times(r, x))
  {
    assert r * x * k == r * (k * x) == k * (r * x);
  }

  /** One no quicker than the magnet with it earlier. */
  lemma HoldEarlier(c: Curves, s: Spec, ta: real, full: real, r: real, x: real, rr: real, n: Nodes)
    requires Lawful(c) && ValidSpec(s) && 0.0 < r <= rr && x > 0.0 && full >= 0.0 && Heating(s, ta, full, n)
    requires s.tauMagnet <= s.tauCoil
    ensures Below(Hold(c, s, ta, full, r + x, Hold(c, s, ta, full, rr, n)),
                  Hold(c, s, ta, full, r, Hold(c, s, ta, full, rr + x, n)))
  {
    assert n.magnet <= SteadyMagnet(s, ta, full);
    hide Hold, Lag, SteadyMagnet, Rise, Heating, Lawful, Times;
    var fr, gr := HoldIs(c, s, ta, full, r, Hold(c, s, ta, full, rr + x, n));
    var fk, gk := HoldIs(c, s, ta, full, rr, n);
    var fx, gx := HoldIs(c, s, ta, full, x, n);
    var fb, gb := HoldIs(c, s, ta, full, r + x, Hold(c, s, ta, full, rr, n));
    var fc, gc := HoldIs(c, s, ta, full, rr + x, n);
    DecayAdds(c, r, x, s.tauCoil);
    DecayAdds(c, r, x, s.tauMagnet);
    DecayAdds(c, rr, x, s.tauCoil);
    DecayAdds(c, rr, x, s.tauMagnet);
    Trade(c, s.tauMagnet, s.tauCoil, x, r, rr);
    var f, g := Times(Times(fr, fx), fk), Times(Times(gr, gx), gk);
    LaterLoss(gr, gx, gk, fr, fx, fk, g, f);
    TimesSwaps(fr, fx, fk);
    TimesSwaps(gr, gx, gk);
    TimesCommute(fr - f, Times(gk, gx) - g);
    TimesCommute(Times(fr, fx) - f, gk - g);
    PairsCompare(n, SteadyMagnet(s, ta, full), Rise(s, full), fk, gk, fb, gb, fc, gc, fr, gr, f, g);
  }

  lemma TimesCommute(x: real, y: real)
    ensures Times(x, y) == Times(y, x)
  {}

  // ---- any cut against whole sub-steps ---------------------------------------------------------------

  /** `n` whole sub-steps at full scale. */
  function WholeSteps(c: Curves, s: Spec, ta: real, full: real, n: nat, y: Nodes): Nodes
    requires ValidSpec(s)
  {
    Run(Const(WholeKernel(c, s, ta), n, full), y)
  }

  lemma WholeMore(c: Curves, s: Spec, ta: real, full: real, n: nat, y: Nodes)
    requires ValidSpec(s)
    ensures WholeSteps(c, s, ta, full, 0, y) == y
    ensures WholeSteps(c, s, ta, full, n + 1, y) == Hold(c, s, ta, full, MAX_SUB_DT, WholeSteps(c, s, ta, full, n, y))
    ensures WholeSteps(c, s, ta, full, n + 1, y) == WholeSteps(c, s, ta, full, n, Hold(c, s, ta, full, MAX_SUB_DT, y))
  {
    var k := WholeKernel(c, s, ta);
    RunOneMore(k, n, full, y);
    RunAppend(Const(k, 1, full), Const(k, n, full), y);
    assert Const(k, 1, full) + Const(k, n, full) == Const(k, n + 1, full);
    RunOneMore(k, 0, full, y);
  }

  lemma {:induction false} WholeRises(c: Curves, s: Spec, ta: real, full: real, n: nat, x: Nodes, y: Nodes)
    requires Lawful(c) && ValidSpec(s) && full >= 0.0 && Heating(s, ta, full, y) && Below(x, y)
    ensures Below(WholeSteps(c, s, ta, full, n, x), WholeSteps(c, s, ta, full, n, y))
    ensures Heating(s, ta, full, WholeSteps(c, s, ta, full, n, y))
  {
    WholeMore(c, s, ta, full, 0, x);
    WholeMore(c, s, ta, full, 0, y);
    if n > 0 {
      hide WholeSteps, Hold, Heating;
      WholeMore(c, s, ta, full, n - 1, x);
      WholeMore(c, s, ta, full, n - 1, y);
      WholeRises(c, s, ta, full, n - 1, x, y);
      HoldRises(c, s, ta, full, MAX_SUB_DT, WholeSteps(c, s, ta, full, n - 1, y));
      HoldMonotone(c, s, ta, full, MAX_SUB_DT, WholeSteps(c, s, ta, full, n - 1, x), WholeSteps(c, s, ta, full, n - 1, y));
    }
  }

  lemma HoldMonotone(c: Curves, s: Spec, ta: real, full: real, h: real, x: Nodes, y: Nodes)
    requires Lawful(c) && ValidSpec(s) && h > 0.0 && Below(x, y)
    ensures Below(Hold(c, s, ta, full, h, x), Hold(c, s, ta, full, h, y))
  {
    KernelSound(c, s, h, ta);
    NodesMonotone(KernelOf(c, s, h, ta), full, full, x, y);
  }

  /** Heating, a longer time leaves no cooler nodes. */
  lemma HoldLonger(c: Curves, s: Spec, ta: real, full: real, a: real, b: real, y: Nodes)
    requires Lawful(c) && ValidSpec(s) && full >= 0.0 && Heating(s, ta, full, y) && 0.0 < a <= b
    ensures Below(Hold(c, s, ta, full, a, y), Hold(c, s, ta, full, b, y))
  {
    hide Hold, Heating;
    if a < b {
      HoldRises(c, s, ta, full, a, y);
      HoldRises(c, s, ta, full, b - a, Hold(c, s, ta, full, a, y));
      HoldSplits(c, s, ta, full, a, b - a, y);
    }
  }

  /** The nodes after sub-steps of these lengths at full scale. */
  function HeldFor(c: Curves, s: Spec, ta: real, full: real, hs: seq<real>, y: Nodes): Nodes
    requires ValidSpec(s)
  {
    if hs == [] then y else Hold(c, s, ta, full, hs[|hs| - 1], HeldFor(c, s, ta, full, hs[..|hs| - 1], y))
  }

  function Total(hs: seq<real>): real {
    if hs == [] then 0.0 else Total(hs[..|hs| - 1]) + hs[|hs| - 1]
  }

  predicate Lengths(hs: seq<real>) {
    forall i :: 0 <= i < |hs| ==> 0.0 < hs[i] <= MAX_SUB_DT
  }

  lemma {:induction false} HeldFirst(c: Curves, s: Spec, ta: real, full: real, hs: seq<real>, y: Nodes)
    requires ValidSpec(s) && hs != []
    ensures HeldFor(c, s, ta, full, hs, y) == HeldFor(c, s, ta, full, hs[1..], Hold(c, s, ta, full, hs[0], y))
    ensures Total(hs) == hs[0] + Total(hs[1..])
  {
    var l := |hs| - 1;
    if l == 0 {
      assert hs[..0] == [] == hs[1..];
    } else {
      HeldFirst(c, s, ta, full, hs[..l], y);
      assert hs[..l][1..] == hs[1..][..l - 1];
    }
  }

  /** `n` whole sub-steps and a part `r` of one. */
  predicate Parts(hs: seq<real>, n: nat, r: real) {
    0.0 < r <= MAX_SUB_DT && Total(hs) == n as real * MAX_SUB_DT + r
  }

  /** With a coil no slower than the magnet the hottest cut has its part first. */
  lemma {:induction false} PartFirst(c: Curves, s: Spec, ta: real, full: real, hs: seq<real>, y: Nodes)
      returns (n: nat, r: real)
    requires Lawful(c) && ValidSpec(s) && full >= 0.0 && Heating(s, ta, full, y) && s.tauCoil <= s.tauMagnet
    requires Lengths(hs) && hs != []
    ensures Parts(hs, n, r)
    ensures Below(HeldFor(c, s, ta, full, hs, y), WholeSteps(c, s, ta, full, n, Hold(c, s, ta, full, r, y)))
    decreases |hs|
  {
    var h := hs[0];
    HeldFirst(c, s, ta, full, hs, y);
    HoldRises(c, s, ta, full, h, y);
    if |hs| == 1 {
      n, r := 0, h;
      WholeMore(c, s, ta, full, 0, Hold(c, s, ta, full, h, y));
    } else {
      hide HeldFor, Hold, WholeSteps, Heating, Total, Below;
      var m, k := PartFirst(c, s, ta, full, hs[1..], Hold(c, s, ta, full, h, y));
      n, r := FirstMerges(c, s, ta, full, h, m, k, y);
      BelowToo(HeldFor(c, s, ta, full, hs, y),
               WholeSteps(c, s, ta, full, m, Hold(c, s, ta, full, k, Hold(c, s, ta, full, h, y))),
               WholeSteps(c, s, ta, full, n, Hold(c, s, ta, full, r, y)));
    }
  }

  lemma BelowToo(x: Nodes, y: Nodes, z: Nodes)
    requires Below(x, y) && Below(y, z)
    ensures Below(x, z)
  {}

  /** A length before a part and whole sub-steps. */
  lemma FirstMerges(c: Curves, s: Spec, ta: real, full: real, h: real, m: nat, k: real, y: Nodes) returns (n: nat, r: real)
    requires Lawful(c) && ValidSpec(s) && full >= 0.0 && Heating(s, ta, full, y) && s.tauCoil <= s.tauMagnet
    requires 0.0 < h <= MAX_SUB_DT && 0.0 < k <= MAX_SUB_DT
    ensures 0.0 < r <= MAX_SUB_DT && n as real * MAX_SUB_DT + r == h + (m as real * MAX_SUB_DT + k)
    ensures Below(WholeSteps(c, s, ta, full, m, Hold(c, s, ta, full, k, Hold(c, s, ta, full, h, y))),
                  WholeSteps(c, s, ta, full, n, Hold(c, s, ta, full, r, y)))
  {
    hide Hold, WholeSteps, Heating;
    if h + k <= MAX_SUB_DT {
      n, r := m, h + k;
      HoldSplits(c, s, ta, full, h, k, y);
      HoldRises(c, s, ta, full, r, y);
      WholeRises(c, s, ta, full, m, Hold(c, s, ta, full, k, Hold(c, s, ta, full, h, y)), Hold(c, s, ta, full, r, y));
    } else {
      n, r := m + 1, h + k - MAX_SUB_DT;
      var z := Hold(c, s, ta, full, r, y);
      if k < MAX_SUB_DT { HoldLater(c, s, ta, full, r, MAX_SUB_DT - k, k, y); }
      HoldRises(c, s, ta, full, r, y);
      HoldRises(c, s, ta, full, MAX_SUB_DT, z);
      WholeRises(c, s, ta, full, m, Hold(c, s, ta, full, k, Hold(c, s, ta, full, h, y)), Hold(c, s, ta, full, MAX_SUB_DT, z));
      WholeMore(c, s, ta, full, m, z);
    }
  }

  /** With a coil no quicker it has its part last. */
  lemma {:induction false} PartLast(c: Curves, s: Spec, ta: real, full: real, hs: seq<real>, y: Nodes)
      returns (n: nat, r: real)
    requires Lawful(c) && ValidSpec(s) && full >= 0.0 && Heating(s, ta, full, y) && s.tauMagnet <= s.tauCoil
    requires Lengths(hs) && hs != []
    ensures Parts(hs, n, r)
    ensures Below(HeldFor(c, s, ta, full, hs, y), Hold(c, s, ta, full, r, WholeSteps(c, s, ta, full, n, y)))
    decreases |hs|
  {
    var l := |hs| - 1;
    var h := hs[l];
    assert Total(hs) == Total(hs[..l]) + h;
    if l == 0 {
      n, r := 0, h;
      assert hs[..l] == [];
      WholeMore(c, s, ta, full, 0, y);
    } else {
      assert HeldFor(c, s, ta, full, hs, y) == Hold(c, s, ta, full, h, HeldFor(c, s, ta, full, hs[..l], y));
      hide HeldFor, Hold, WholeSteps, Heating, Below;
      var m, k := PartLast(c, s, ta, full, hs[..l], y);
      HoldMonotone(c, s, ta, full, h, HeldFor(c, s, ta, full, hs[..l], y),
                   Hold(c, s, ta, full, k, WholeSteps(c, s, ta, full, m, y)));
      n, r := LastMerges(c, s, ta, full, h, m, k, y);
      BelowToo(HeldFor(c, s, ta, full, hs, y),
               Hold(c, s, ta, full, h, Hold(c, s, ta, full, k, WholeSteps(c, s, ta, full, m, y))),
               Hold(c, s, ta, full, r, WholeSteps(c, s, ta, full, n, y)));
    }
  }

  lemma LastMerges(c: Curves, s: Spec, ta: real, full: real, h: real, m: nat, k: real, y: Nodes) returns (n: nat, r: real)
    requires Lawful(c) && ValidSpec(s) && full >= 0.0 && Heating(s, ta, full, y) && s.tauMagnet <= s.tauCoil
    requires 0.0 < h <= MAX_SUB_DT && 0.0 < k <= MAX_SUB_DT
    ensures 0.0 < r <= MAX_SUB_DT && n as real * MAX_SUB_DT + r == h + (m as real * MAX_SUB_DT + k)
    ensures Below(Hold(c, s, ta, full, h, Hold(c, s, ta, full, k, WholeSteps(c, s, ta, full, m, y))),
                  Hold(c, s, ta, full, r, WholeSteps(c, s, ta, full, n, y)))
  {
    hide Hold, WholeSteps, Heating;
    var z := WholeSteps(c, s, ta, full, m, y);
    WholeRises(c, s, ta, full, m, y, y);
    if h + k <= MAX_SUB_DT {
      n, r := m, h + k;
      HoldSplits(c, s, ta, full, k, h, z);
    } else {
      n, r := m + 1, h + k - MAX_SUB_DT;
      if k < MAX_SUB_DT { HoldEarlier(c, s, ta, full, r, MAX_SUB_DT - k, k, z); }
      WholeMore(c, s, ta, full, m, y);
    }
  }

  /** A time at full scale, cut into sub-steps of at most MAX_SUB_DT in any way, leaves no hotter nodes than
      whole ones that last at least as long. */
  lemma WholeStepsAreHottest(c: Curves, s: Spec, ta: real, full: real, hs: seq<real>, m: nat, y: Nodes) returns (n: nat)
    requires Lawful(c) && ValidSpec(s) && full >= 0.0 && Heating(s, ta, full, y)
    requires Lengths(hs) && Total(hs) <= m as real * MAX_SUB_DT
    ensures n <= m && Below(HeldFor(c, s, ta, full, hs, y), WholeSteps(c, s, ta, full, n, y))
    ensures Heating(s, ta, full, WholeSteps(c, s, ta, full, n, y))
  {
    if hs == [] {
      n := 0;
      WholeMore(c, s, ta, full, 0, y);
    } else {
      hide HeldFor, Hold, WholeSteps, Heating, Total;
      var k, r;
      if s.tauCoil <= s.tauMagnet {
        k, r := PartFirst(c, s, ta, full, hs, y);
        HoldLonger(c, s, ta, full, r, MAX_SUB_DT, y);
        HoldRises(c, s, ta, full, MAX_SUB_DT, y);
        WholeRises(c, s, ta, full, k, Hold(c, s, ta, full, r, y), Hold(c, s, ta, full, MAX_SUB_DT, y));
      } else {
        k, r := PartLast(c, s, ta, full, hs, y);
        WholeRises(c, s, ta, full, k, y, y);
        HoldLonger(c, s, ta, full, r, MAX_SUB_DT, WholeSteps(c, s, ta, full, k, y));
      }
      WholeMore(c, s, ta, full, k, y);
      n := k + 1;
      WholeRises(c, s, ta, full, n, y, y);
    }
  }

  /** The lengths of a cut. */
  function LengthsOf(slices: seq<Slice>): (hs: seq<real>)
    ensures |hs| == |slices| && forall i :: 0 <= i < |hs| ==> hs[i] == slices[i].h
  {
    seq(|slices|, i requires 0 <= i < |slices| => slices[i].h)
  }

  lemma {:induction false} CutIsBelowHeld(c: Curves, s: Spec, ta: real, full: real, slices: seq<Slice>, x: Nodes, y: Nodes)
    requires Lawful(c) && ValidSpec(s) && CutWithin(full, slices) && Below(x, y)
    ensures Below(Run(Beats(c, s, ta, slices), x), HeldFor(c, s, ta, full, LengthsOf(slices), y))
    ensures Total(LengthsOf(slices)) == Lasts(slices)
  {
    if slices != [] {
      var l := |slices| - 1;
      var e, front := slices[l], slices[..l];
      CutIsBelowHeld(c, s, ta, full, front, x, y);
      assert LengthsOf(slices)[..l] == LengthsOf(front);
      assert Beats(c, s, ta, slices)[..l] == Beats(c, s, ta, front);
      KernelSound(c, s, e.h, ta);
      NodesMonotone(KernelOf(c, s, e.h, ta), e.watts, full, Run(Beats(c, s, ta, front), x),
                    HeldFor(c, s, ta, full, LengthsOf(front), y));
    }
  }

  /** So a drain, cut anyhow with anything up to full scale in its sub-steps, leaves no hotter nodes than at
      most `m` whole sub-steps at full scale, if it lasts no longer. */
  lemma CutIsBelow(c: Curves, s: Spec, ta: real, full: real, slices: seq<Slice>, m: nat, x: Nodes, y: Nodes) returns (n: nat)
    requires Lawful(c) && ValidSpec(s) && full >= 0.0 && Heating(s, ta, full, y) && Below(x, y)
    requires CutWithin(full, slices) && Lasts(slices) <= m as real * MAX_SUB_DT
    ensures n <= m && Below(Run(Beats(c, s, ta, slices), x), WholeSteps(c, s, ta, full, n, y))
    ensures Heating(s, ta, full, WholeSteps(c, s, ta, full, n, y))
  {
    CutIsBelowHeld(c, s, ta, full, slices, x, y);
    hide Heating, HeldFor, WholeSteps, Total, Lasts, Beats, Run;
    n := WholeStepsAreHottest(c, s, ta, full, LengthsOf(slices), m, y);
  }
}
