/** What the thermal step's bound covers: any way a sub-step's energy can be spread over it,
    one sub-step at a time and over a whole run. */
module SpreadEnergy {
  import opened Config
  import opened Curves
  import opened Reals
  import opened Thermal

  /** A stretch of constant power. */
  datatype Piece = Piece(secs: real, watts: real)

  ghost predicate Pieces(ps: seq<Piece>) {
    forall i :: 0 <= i < |ps| ==> ps[i].secs >= 0.0 && ps[i].watts >= 0.0
  }

  function Secs(ps: seq<Piece>): real {
    if ps == [] then 0.0 else Secs(ps[..|ps| - 1]) + ps[|ps| - 1].secs
  }

  function Joules(ps: seq<Piece>): real {
    if ps == [] then 0.0 else Joules(ps[..|ps| - 1]) + ps[|ps| - 1].watts * ps[|ps| - 1].secs
  }

  /** The coil after the pieces, each followed exactly, the magnet held at `m`. */
  function Coil(c: Curves, s: Spec, m: real, ps: seq<Piece>, coil: real): real
    requires s.tauCoil > 0.0
  {
    if ps == [] then coil
    else
      var p := ps[|ps| - 1];
      Lag(Coil(c, s, m, ps[..|ps| - 1], coil), m + p.watts * s.trCoil, 1.0 - c.decay(p.secs / s.tauCoil))
  }

  lemma {:induction false} PrefixSums(ps: seq<Piece>, j: nat)
    requires Pieces(ps) && j <= |ps|
    ensures 0.0 <= Secs(ps[..j]) <= Secs(ps)
    ensures 0.0 <= Joules(ps[..j]) <= Joules(ps)
    decreases |ps|, j
  {
    if j == |ps| {
      assert ps[..j] == ps;
      if j > 0 {
        PrefixSums(ps, j - 1);
        Nonneg(ps[j - 1].watts, ps[j - 1].secs);
      }
    } else {
      var l := |ps| - 1;
      PrefixSums(ps[..l], j);
      assert ps[..l][..j] == ps[..j];
      Nonneg(ps[l].watts, ps[l].secs);
    }
  }

  /** Kept: the share `f` of the start's gap and of the energy so far; gained: the piece's energy. */
  lemma PieceTerms(y: real, m: real, x: real, big: real, e: real, w: real, f: real, u: real)
    requires y - m <= (x - m) * big + e && e >= 0.0 && w >= 0.0 && 0.0 < f <= 1.0 && 1.0 - f <= u
    ensures Lag(y, m + w, 1.0 - f) - m <= (x - m) * (big * f) + e + w * u
  {
    Nonneg((x - m) * big + e - (y - m), f);
    Nonneg(e, 1.0 - f);
    Nonneg(w, u - (1.0 - f));
    assert (x - m) * (big * f) + e + w * u - (Lag(y, m + w, 1.0 - f) - m)
        == ((x - m) * big + e - (y - m)) * f + e * (1.0 - f) + w * (u - (1.0 - f));
  }

  /** Energy `e` so far as a rise, and a piece's on top of it. */
  lemma PieceRise(e: real, w: real, d: real, tr: real, tau: real)
    requires tau > 0.0
    ensures e * (tr / tau) + w * tr * (d / tau) == (e + w * d) * (tr / tau)
  {
    var i := 1.0 / tau;
    assert tr / tau == tr * i && d / tau == d * i;
  }

  /** The rise the energy `e` would give at once. */
  function Rise(s: Spec, e: real): real
    requires s.tauCoil > 0.0
  {
    e * (s.trCoil / s.tauCoil)
  }

  lemma RiseGrows(s: Spec, e: real, p: Piece)
    requires ValidSpec(s) && e >= 0.0 && p.watts >= 0.0
    ensures Rise(s, e) >= 0.0
    ensures Rise(s, e + p.watts * p.secs) == Rise(s, e) + p.watts * s.trCoil * (p.secs / s.tauCoil)
    ensures p.watts * s.trCoil >= 0.0
  {
    Nonneg(p.watts, s.trCoil);
    QuotientNonneg(s.trCoil, s.tauCoil);
    Nonneg(e, s.trCoil / s.tauCoil);
    PieceRise(e, p.watts, p.secs, s.trCoil, s.tauCoil);
  }

  /** What is left of the gap from `m` to `x` after `d` seconds. */
  function Kept(c: Curves, s: Spec, m: real, x: real, d: real): real
    requires s.tauCoil > 0.0
  {
    (x - m) * c.decay(d / s.tauCoil)
  }

  lemma KeptAtOnce(c: Curves, s: Spec, m: real, x: real)
    requires Lawful(c) && ValidSpec(s)
    ensures Kept(c, s, m, x, 0.0) == x - m && Rise(s, 0.0) == 0.0
  {
    DecayInverse(c, 0.0);
  }

  lemma KeptAdds(c: Curves, s: Spec, m: real, x: real, d: real, e: real)
    requires Lawful(c) && ValidSpec(s)
    ensures Kept(c, s, m, x, d + e) == (x - m) * (c.decay(d / s.tauCoil) * c.decay(e / s.tauCoil))
  {
    DecayAdd(c, d / s.tauCoil, e / s.tauCoil);
    assert d / s.tauCoil + e / s.tauCoil == (d + e) / s.tauCoil;
  }

  /** The coil over the magnet is never more than what is left of the start's gap plus all of
      the energy so far at once. */
  lemma {:induction false} CoilBelow(c: Curves, s: Spec, m: real, ps: seq<Piece>, coil: real)
    requires Lawful(c) && ValidSpec(s) && Pieces(ps)
    ensures Coil(c, s, m, ps, coil) - m <= Kept(c, s, m, coil, Secs(ps)) + Rise(s, Joules(ps))
  {
    if ps == [] {
      KeptAtOnce(c, s, m, coil);
    } else {
      var l := |ps| - 1;
      CoilBelow(c, s, m, ps[..l], coil);
      PrefixSums(ps, l);
      PieceBelow(c, s, m, ps[l], Coil(c, s, m, ps[..l], coil), coil, Secs(ps[..l]), Joules(ps[..l]));
    }
  }

  lemma PieceBelow(c: Curves, s: Spec, m: real, p: Piece, y: real, coil: real, d: real, e: real)
    requires Lawful(c) && ValidSpec(s) && p.secs >= 0.0 && p.watts >= 0.0 && e >= 0.0
    requires y - m <= Kept(c, s, m, coil, d) + Rise(s, e)
    ensures Lag(y, m + p.watts * s.trCoil, 1.0 - c.decay(p.secs / s.tauCoil)) - m
         <= Kept(c, s, m, coil, d + p.secs) + Rise(s, e + p.watts * p.secs)
  {
    RiseGrows(s, e, p);
    KeptAdds(c, s, m, coil, d, p.secs);
    QuotientNonneg(p.secs, s.tauCoil);
    DecayAtMostOne(c, p.secs / s.tauCoil);
    DecayTangent(c, p.secs / s.tauCoil);
    PieceTerms(y, m, coil, c.decay(d / s.tauCoil), Rise(s, e), p.watts * s.trCoil,
               c.decay(p.secs / s.tauCoil), p.secs / s.tauCoil);
  }

  /** Whatever energy has come by a moment of the sub-step is at most its whole burst. */
  lemma EnergyIsBurst(c: Curves, s: Spec, h: real, p: real, ta: real, e: real)
    requires ValidSpec(s) && h > 0.0 && e <= p * h
    ensures Rise(s, e) <= Burst(KernelOf(c, s, h, ta), p)
  {
    QuotientNonneg(s.trCoil, s.tauCoil);
    ScaleOrder(s.trCoil / s.tauCoil, e, p * h);
    BurstIs(p, h, s.trCoil, s.tauCoil);
  }

  lemma BurstIs(p: real, h: real, tr: real, tau: real)
    requires tau > 0.0
    ensures p * h * (tr / tau) == p * (tr * (h / tau))
  {
    var i := 1.0 / tau;
    assert tr / tau == tr * i && h / tau == h * i;
  }

  lemma BurstGrows(k: Kernel, p: real)
    requires Sound(k) && p >= 0.0
    ensures 0.0 <= Burst(k, p) <= Grown(k, p)
  {
    BelowInverse(1.0 - k.kCoil, 1.0 + k.grow);
    Nonneg(k.trCoil, k.lam);
    Nonneg(p, k.trCoil * k.lam);
    Nonneg(p * (k.trCoil * k.lam), k.grow);
    assert Grown(k, p) == Burst(k, p) + p * (k.trCoil * k.lam) * k.grow;
  }

  /** The gap is at most the whole of it or what is left at the sub-step's end. */
  lemma GapShrinks(c: Curves, s: Spec, h: real, m: real, x: real, d: real)
    requires Lawful(c) && ValidSpec(s) && 0.0 <= d <= h
    ensures Kept(c, s, m, x, d) <= Max(x - m, Kept(c, s, m, x, h))
  {
    QuotientOrder(d, h, s.tauCoil);
    DecayAtMostOne(c, d / s.tauCoil);
    DecayAntitone(c, d / s.tauCoil, h / s.tauCoil);
    GapTerms(x, m, c.decay(h / s.tauCoil), c.decay(d / s.tauCoil));
  }

  lemma GapTerms(x: real, m: real, a: real, f: real)
    requires a <= f <= 1.0
    ensures (x - m) * f <= Max(x - m, (x - m) * a)
  {
    if x >= m {
      Nonneg(x - m, 1.0 - f);
      assert (x - m) - (x - m) * f == (x - m) * (1.0 - f);
    } else {
      Nonneg(m - x, f - a);
      assert (x - m) * a - (x - m) * f == (m - x) * (f - a);
    }
  }

  lemma LateEndKeeps(c: Curves, s: Spec, h: real, p: real, ta: real, n: Nodes)
    requires Lawful(c) && ValidSpec(s) && h > 0.0
    ensures var k := KernelOf(c, s, h, ta); var m := StepMagnet(k, p, n);
      Step(k, p, n).coil + Late(k, p) - m == Kept(c, s, m, n.coil, h) + Burst(k, p)
  {
    KernelSound(c, s, h, ta);
    LateEnd(KernelOf(c, s, h, ta), p, n);
  }

  /** The room under the bound: the gap, whole or shrunk, and the burst. */
  lemma BoundIsRoomy(c: Curves, s: Spec, h: real, p: real, ta: real, n: Nodes)
    requires Lawful(c) && ValidSpec(s) && h > 0.0 && p >= 0.0
    ensures var k := KernelOf(c, s, h, ta); var m := StepMagnet(k, p, n);
      Max(n.coil - m, Kept(c, s, m, n.coil, h)) + Burst(k, p) <= Bound(k, p, n) - m
  {
    var k := KernelOf(c, s, h, ta);
    KernelSound(c, s, h, ta);
    LateEndKeeps(c, s, h, p, ta, n);
    BoundClosedForm(k, p, n);
    BurstGrows(k, p);
  }

  /** However the sub-step's energy was spread over it, in however many pieces, the coil was
      never above the bound, nor its end above the late end. */
  lemma SpreadIsCovered(c: Curves, s: Spec, h: real, p: real, ta: real, n: Nodes, ps: seq<Piece>, j: nat)
    requires Lawful(c) && ValidSpec(s) && h > 0.0 && p >= 0.0
    requires Pieces(ps) && Secs(ps) == h && Joules(ps) <= p * h && j <= |ps|
    ensures var k := KernelOf(c, s, h, ta);
      && Coil(c, s, StepMagnet(k, p, n), ps[..j], n.coil) <= Bound(k, p, n)
      && Coil(c, s, StepMagnet(k, p, n), ps, n.coil) <= Step(k, p, n).coil + Late(k, p)
  {
    var m := StepMagnet(KernelOf(c, s, h, ta), p, n);
    PrefixSums(ps, j);
    assert Coil(c, s, m, ps[..j], n.coil) <= Bound(KernelOf(c, s, h, ta), p, n) by {
      CoilBelow(c, s, m, ps[..j], n.coil);
      GapShrinks(c, s, h, m, n.coil, Secs(ps[..j]));
      EnergyIsBurst(c, s, h, p, ta, Joules(ps[..j]));
      BoundIsRoomy(c, s, h, p, ta, n);
    }
    CoilBelow(c, s, m, ps, n.coil);
    EnergyIsBurst(c, s, h, p, ta, Joules(ps));
    LateEndKeeps(c, s, h, p, ta, n);
  }

  // ---- over a run ---------------------------------------------------------------------------

  /** A sub-step of `h` seconds charged at `charged` watts, and what really came, piece by piece. */
  datatype Sub = Sub(h: real, charged: real, ta: real, truth: seq<Piece>)

  ghost predicate Charged(b: Sub) {
    && b.h > 0.0 && b.charged >= 0.0
    && Pieces(b.truth) && Secs(b.truth) == b.h
    && Joules(b.truth) <= b.charged * b.h
  }

  /** The program's nodes after the sub-steps. */
  function Model(c: Curves, s: Spec, bs: seq<Sub>, n: Nodes): Nodes
    requires ValidSpec(s)
  {
    if bs == [] then n
    else
      var b := bs[|bs| - 1];
      Step(KernelOf(c, s, b.h, b.ta), b.charged, Model(c, s, bs[..|bs| - 1], n))
  }

  /** The power the truth's magnet got over the sub-step: its energy's mean. */
  function Mean(b: Sub): real {
    if b.h != 0.0 then Joules(b.truth) / b.h else 0.0
  }

  /** The plant after the sub-steps: the magnet with each sub-step's mean power, the coil piece by piece. */
  function Plant(c: Curves, s: Spec, bs: seq<Sub>, t: Nodes): Nodes
    requires ValidSpec(s)
  {
    if bs == [] then t
    else
      var b, before := bs[|bs| - 1], Plant(c, s, bs[..|bs| - 1], t);
      var m := StepMagnet(KernelOf(c, s, b.h, b.ta), Mean(b), before);
      Nodes(Coil(c, s, m, b.truth, before.coil), m)
  }

  /** What energy late in every sub-step can add up to over the program's coil, which keeps the
      constant-power end and not the late one. */
  function Excess(c: Curves, s: Spec, bs: seq<Sub>): real
    requires ValidSpec(s)
  {
    if bs == [] then 0.0
    else
      var b := bs[|bs| - 1];
      var k := KernelOf(c, s, b.h, b.ta);
      Carry(k, Excess(c, s, bs[..|bs| - 1]), b.charged)
  }

  /** What is left of an excess after a sub-step, and the sub-step's own late energy. */
  function Carry(k: Kernel, d: real, p: real): real {
    d * (1.0 - k.kCoil) + Late(k, p)
  }

  lemma ShiftedLag(x: real, d: real, t: real, k: real)
    ensures Lag(x + d, t, k) == Lag(x, t, k) + d * (1.0 - k)
  {}

  lemma ShiftedEnd(k: Kernel, p: real, n: Nodes, up: Nodes, d: real)
    requires up.magnet == n.magnet && up.coil == n.coil + d
    ensures Step(k, p, up).coil == Step(k, p, n).coil + d * (1.0 - k.kCoil)
  {
    ShiftedLag(n.coil, d, StepMagnet(k, p, n) + p * k.trCoil, k.kCoil);
  }

  lemma LeftOver(d: real, k: real)
    requires 0.0 < k < 1.0 && d >= 0.0
    ensures 0.0 <= d * (1.0 - k) <= d
  {
    Nonneg(d, k);
    Nonneg(d, 1.0 - k);
    assert d - d * (1.0 - k) == d * k;
  }

  lemma MaxShift(a: real, b: real, e: real, d: real)
    requires e <= d
    ensures Max(a + e, b + d) <= Max(a, b) + d
  {}

  lemma ShiftedBound(k: Kernel, p: real, n: Nodes, up: Nodes, d: real)
    requires Sound(k) && d >= 0.0 && up.magnet == n.magnet && up.coil == n.coil + d
    ensures Bound(k, p, up) <= Bound(k, p, n) + d
  {
    ShiftedEnd(k, p, n, up, d);
    BoundClosedForm(k, p, n);
    BoundClosedForm(k, p, up);
    LeftOver(d, k.kCoil);
    MaxShift(Step(k, p, n).coil + Late(k, p), n.coil + Grown(k, p), d * (1.0 - k.kCoil), d);
  }

  lemma MeanIsCharged(b: Sub)
    requires Charged(b)
    ensures 0.0 <= Mean(b) <= b.charged && Mean(b) * b.h == Joules(b.truth)
  {
    PrefixSums(b.truth, |b.truth|);
    assert b.truth[..|b.truth|] == b.truth;
    DivideTimes(Joules(b.truth), b.h);
    DivideOrder(Joules(b.truth), b.charged, b.h);
    QuotientNonneg(Joules(b.truth), b.h);
  }

  lemma LateNonneg(k: Kernel, p: real)
    requires Sound(k) && p >= 0.0
    ensures Late(k, p) >= 0.0
  {
    Nonneg(p, k.trCoil);
    Nonneg(p * k.trCoil, k.lam - k.kCoil);
  }

  /** A plant at most `d` over the program's coil, one sub-step on: its magnet, and its coil at
      any moment of the sub-step. */
  lemma SubIsCovered(c: Curves, s: Spec, b: Sub, t: Nodes, n: Nodes, d: real, j: nat)
    requires Lawful(c) && ValidSpec(s) && Charged(b) && d >= 0.0 && j <= |b.truth|
    requires t.coil <= n.coil + d && t.magnet <= n.magnet
    ensures var k := KernelOf(c, s, b.h, b.ta); var m := StepMagnet(k, Mean(b), t);
      && m <= StepMagnet(k, b.charged, n)
      && Coil(c, s, m, b.truth[..j], t.coil) <= Bound(k, b.charged, n) + d
  {
    var k := KernelOf(c, s, b.h, b.ta);
    KernelSound(c, s, b.h, b.ta);
    MeanIsCharged(b);
    var up := Nodes(n.coil + d, n.magnet);
    SpreadIsCovered(c, s, b.h, Mean(b), b.ta, t, b.truth, j);
    StepMonotone(k, Mean(b), b.charged, t, up);
    ShiftedBound(k, b.charged, n, up, d);
  }

  /** And where its coil ends. */
  lemma SubEndIsCovered(c: Curves, s: Spec, b: Sub, t: Nodes, n: Nodes, d: real)
    requires Lawful(c) && ValidSpec(s) && Charged(b) && d >= 0.0
    requires t.coil <= n.coil + d && t.magnet <= n.magnet
    ensures var k := KernelOf(c, s, b.h, b.ta);
      Coil(c, s, StepMagnet(k, Mean(b), t), b.truth, t.coil)
        <= Step(k, b.charged, n).coil + Carry(k, d, b.charged)
  {
    var k := KernelOf(c, s, b.h, b.ta);
    KernelSound(c, s, b.h, b.ta);
    MeanIsCharged(b);
    SpreadIsCovered(c, s, b.h, Mean(b), b.ta, t, b.truth, 0);
    LateEndCarries(k, Mean(b), b.charged, t, n, d);
  }

  lemma CarriedEnd(k: Kernel, q: real, n: Nodes, up: Nodes, d: real)
    requires up.magnet == n.magnet && up.coil == n.coil + d
    ensures Step(k, q, up).coil + Late(k, q) == Step(k, q, n).coil + Carry(k, d, q)
  {
    ShiftedEnd(k, q, n, up, d);
  }

  lemma LateEndCarries(k: Kernel, p: real, q: real, t: Nodes, n: Nodes, d: real)
    requires Sound(k) && p <= q && d >= 0.0 && t.coil <= n.coil + d && t.magnet <= n.magnet
    ensures Step(k, p, t).coil + Late(k, p) <= Step(k, q, n).coil + Carry(k, d, q)
  {
    var up := Nodes(n.coil + d, n.magnet);
    NodesMonotone(k, p, q, t, up);
    PowerTerms(k, p, q);
    CarriedEnd(k, q, n, up, d);
  }

  lemma {:induction false} ExcessNonneg(c: Curves, s: Spec, bs: seq<Sub>)
    requires Lawful(c) && ValidSpec(s)
    requires forall i :: 0 <= i < |bs| ==> Charged(bs[i])
    ensures Excess(c, s, bs) >= 0.0
  {
    if bs != [] {
      var l := |bs| - 1;
      ExcessNonneg(c, s, bs[..l]);
      var k := KernelOf(c, s, bs[l].h, bs[l].ta);
      KernelSound(c, s, bs[l].h, bs[l].ta);
      Nonneg(Excess(c, s, bs[..l]), 1.0 - k.kCoil);
      LateNonneg(k, bs[l].charged);
    }
  }

  lemma RunEnds(c: Curves, s: Spec, bs: seq<Sub>, t: Nodes, n: Nodes)
    requires ValidSpec(s) && bs != []
    ensures var l := |bs| - 1; var b := bs[l]; var k := KernelOf(c, s, b.h, b.ta);
      && Model(c, s, bs, n) == Step(k, b.charged, Model(c, s, bs[..l], n))
      && Plant(c, s, bs, t).magnet == StepMagnet(k, Mean(b), Plant(c, s, bs[..l], t))
      && Plant(c, s, bs, t).coil
           == Coil(c, s, StepMagnet(k, Mean(b), Plant(c, s, bs[..l], t)), b.truth, Plant(c, s, bs[..l], t).coil)
      && Excess(c, s, bs) == Carry(k, Excess(c, s, bs[..l]), b.charged)
  {}

  /** Over every run: the plant's magnet never passes the program's, and its coil passes it by
      at most the excess. */
  lemma {:induction false} RunIsCovered(c: Curves, s: Spec, bs: seq<Sub>, t: Nodes, n: Nodes)
    requires Lawful(c) && ValidSpec(s) && Below(t, n)
    requires forall i :: 0 <= i < |bs| ==> Charged(bs[i])
    ensures Plant(c, s, bs, t).magnet <= Model(c, s, bs, n).magnet
    ensures Plant(c, s, bs, t).coil <= Model(c, s, bs, n).coil + Excess(c, s, bs)
  {
    if bs != [] {
      var l := |bs| - 1;
      RunIsCovered(c, s, bs[..l], t, n);
      ExcessNonneg(c, s, bs[..l]);
      RunEnds(c, s, bs, t, n);
      var plant, model, d := Plant(c, s, bs[..l], t), Model(c, s, bs[..l], n), Excess(c, s, bs[..l]);
      SubIsCovered(c, s, bs[l], plant, model, d, 0);
      SubEndIsCovered(c, s, bs[l], plant, model, d);
    }
  }

  /** So while no sub-step's bound reached the limit, the coil was under it, less the excess:
      at every piece of every sub-step of every run. */
  lemma UnlatchedIsUnder(c: Curves, s: Spec, bs: seq<Sub>, t: Nodes, n: Nodes, i: nat, j: nat)
    requires Lawful(c) && ValidSpec(s) && Below(t, n)
    requires forall x :: 0 <= x < |bs| ==> Charged(bs[x])
    requires i < |bs| && j <= |bs[i].truth|
    requires var b := bs[i]; Bound(KernelOf(c, s, b.h, b.ta), b.charged, Model(c, s, bs[..i], n)) < s.tLimit
    ensures var b := bs[i]; var at := Plant(c, s, bs[..i], t);
      Coil(c, s, StepMagnet(KernelOf(c, s, b.h, b.ta), Mean(b), at), b.truth[..j], at.coil)
        < s.tLimit + Excess(c, s, bs[..i])
  {
    RunIsCovered(c, s, bs[..i], t, n);
    ExcessNonneg(c, s, bs[..i]);
    SubIsCovered(c, s, bs[i], Plant(c, s, bs[..i], t), Model(c, s, bs[..i], n), Excess(c, s, bs[..i]), j);
  }

  /** The shorter sub-step's late energy over its lag's step is the smaller. */
  lemma LateSlows(c: Curves, s: Spec, h: real, ta: real, big: real, tb: real, q: real, p: real)
    requires Lawful(c) && ValidSpec(s) && 0.0 < h <= big && 0.0 <= q <= p
    ensures var k, o := KernelOf(c, s, h, ta), KernelOf(c, s, big, tb);
      Late(k, q) * o.kCoil <= Late(o, p) * k.kCoil
  {
    var tau := s.tauCoil;
    KernelSound(c, s, h, ta);
    KernelSound(c, s, big, tb);
    QuotientPositive(h, tau);
    QuotientOrder(h, big, tau);
    DecaySlows(c, h / tau, big / tau);
    var k, o := KernelOf(c, s, h, ta), KernelOf(c, s, big, tb);
    Nonneg(q, s.trCoil);
    ScaleOrder(s.trCoil, q, p);
    LateShares(q * s.trCoil, p * s.trCoil, k.lam, k.kCoil, o.lam, o.kCoil);
  }

  lemma LateShares(x: real, y: real, l: real, k: real, m: real, o: real)
    requires 0.0 <= x <= y && 0.0 < k <= l && 0.0 < o <= m && l * o <= m * k
    ensures x * Max(l - k, 0.0) * o <= y * Max(m - o, 0.0) * k
  {
    Nonneg(m - o, k);
    ScaleOrder(x, (l - k) * o, (m - o) * k);
    ScaleOrder((m - o) * k, x, y);
    assert x * (l - k) * o == x * ((l - k) * o) && y * (m - o) * k == y * ((m - o) * k);
  }

  lemma ExcessTerms(e: real, k: real, o: real, l: real, big: real)
    requires 0.0 < k < 1.0 && e * o <= big && l * o <= big * k
    ensures (e * (1.0 - k) + l) * o <= big
  {
    Nonneg(1.0 - k, big - e * o);
    assert big - (e * (1.0 - k) + l) * o == (1.0 - k) * (big - e * o) + (big * k - l * o);
  }

  /** The excess never grows past the late energy of one sub-step of the longest length and power,
      over its lag's step: whatever the lengths, the powers and the ambients of the run. */
  lemma {:induction false} ExcessIsSmall(c: Curves, s: Spec, bs: seq<Sub>, h: real, ta: real, p: real)
    requires Lawful(c) && ValidSpec(s) && h > 0.0 && p >= 0.0
    requires forall i :: 0 <= i < |bs| ==> 0.0 < bs[i].h <= h && 0.0 <= bs[i].charged <= p
    ensures var k := KernelOf(c, s, h, ta); Excess(c, s, bs) * k.kCoil <= Late(k, p)
  {
    hide KernelOf, Late, Sound;
    var o := KernelOf(c, s, h, ta);
    if bs == [] {
      KernelSound(c, s, h, ta);
      LateNonneg(o, p);
    } else {
      var b, front := bs[|bs| - 1], bs[..|bs| - 1];
      ExcessIsSmall(c, s, front, h, ta, p);
      LateSlows(c, s, b.h, b.ta, h, ta, b.charged, p);
      var k := KernelOf(c, s, b.h, b.ta);
      LagStep(c, s, b);
      ExcessTerms(Excess(c, s, front), k.kCoil, o.kCoil, Late(k, b.charged), Late(o, p));
    }
  }

  lemma LagStep(c: Curves, s: Spec, b: Sub)
    requires Lawful(c) && ValidSpec(s) && b.h > 0.0
    ensures 0.0 < KernelOf(c, s, b.h, b.ta).kCoil < 1.0
  {
    KernelSound(c, s, b.h, b.ta);
  }
}
