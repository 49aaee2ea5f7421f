/** Exactly how hot a run of charged sub-steps can have been (src/model.rs, `heat_temps`): of all the
    ways the charged energies can have come, none at more than full scale, the hottest coil. */
module WorstSpread {
  import opened Config
  import opened Curves
  import opened Reals
  import opened Thermal
  import opened SpreadEnergy

  /** A charged sub-step none of whose pieces is over full scale. */
  ghost predicate Played(full: real, b: Sub) {
    && Charged(b) && b.charged <= full
    && Capped(full, b.truth)
  }

  ghost predicate Capped(full: real, ps: seq<Piece>) {
    forall i :: 0 <= i < |ps| ==> 0.0 <= ps[i].secs && 0.0 <= ps[i].watts <= full
  }

  /** How long the charged energy lasts at full scale. */
  function AtFull(full: real, b: Sub): real
    requires full > 0.0
  {
    b.charged * b.h / full
  }

  /** What a lag of `d` seconds keeps. */
  function Share(c: Curves, s: Spec, d: real): real
    requires s.tauCoil != 0.0
  {
    c.decay(d / s.tauCoil)
  }

  /** Where full scale holds the coil over the magnet. */
  function Top(s: Spec, full: real): real {
    full * s.trCoil
  }

  /** The part `f` of a gap, and a rise less its own part `a`. */
  function Blend(g: real, top: real, f: real, a: real): real {
    g * f + top * (1.0 - a)
  }

  /** The coil over the magnet after `d` seconds from the gap `g`, the last `u` of them at full scale. */
  function Rest(c: Curves, s: Spec, full: real, g: real, d: real, u: real): real
    requires s.tauCoil != 0.0
  {
    Blend(g, Top(s, full), Share(c, s, d), Share(c, s, u))
  }

  /** The coil after the sub-step from `x` with all its energy at full scale at its end. */
  function LateAfter(c: Curves, s: Spec, full: real, b: Sub, m: real, x: real): real
    requires ValidSpec(s) && full > 0.0
  {
    m + Rest(c, s, full, x - m, b.h, AtFull(full, b))
  }

  /** And where its energy runs out with all of it at full scale at its start. */
  function EarlyAfter(c: Curves, s: Spec, full: real, b: Sub, m: real, x: real): real
    requires ValidSpec(s) && full > 0.0
  {
    m + Rest(c, s, full, x - m, AtFull(full, b), AtFull(full, b))
  }

  // ---- lags ---------------------------------------------------------------------------------

  lemma ShareOrder(c: Curves, s: Spec, d: real, e: real)
    requires Lawful(c) && ValidSpec(s) && 0.0 <= d <= e
    ensures 0.0 < Share(c, s, e) <= Share(c, s, d) <= 1.0
  {
    QuotientNonneg(d, s.tauCoil);
    QuotientOrder(d, e, s.tauCoil);
    DecayAtMostOne(c, d / s.tauCoil);
    DecayAtMostOne(c, e / s.tauCoil);
    DecayAntitone(c, d / s.tauCoil, e / s.tauCoil);
  }

  lemma ShareAdds(c: Curves, s: Spec, d: real, e: real, sum: real)
    requires Lawful(c) && ValidSpec(s) && sum == d + e
    ensures Share(c, s, sum) == Times(Share(c, s, d), Share(c, s, e))
  {
    DecayAdd(c, d / s.tauCoil, e / s.tauCoil);
    assert d / s.tauCoil + e / s.tauCoil == sum / s.tauCoil;
  }

  lemma TopNonneg(s: Spec, full: real)
    requires ValidSpec(s) && full > 0.0
    ensures Top(s, full) >= 0.0
  {
    Nonneg(full, s.trCoil);
  }

  lemma LagGap(y: real, m: real, w: real, f: real)
    ensures Lag(y, m + w, 1.0 - f) - m == Blend(y - m, w, f, f)
  {}

  // ---- one piece ----------------------------------------------------------------------------

  lemma PieceRest(y: real, g: real, big: real, f: real, a: real, q: real, th: real, top: real, w: real)
    requires y <= Blend(g, top, big, a) && top >= 0.0 && w == th * top
    requires 0.0 < a <= 1.0 && 0.0 <= f <= q <= 1.0 - th * (1.0 - f)
    ensures Blend(y, w, f, f) <= Blend(g, top, Times(big, f), Times(a, q))
  {
    Nonneg(g * big + top * (1.0 - a) - y, f);
    Nonneg(1.0 - a, q - f);
    var room := 1.0 - th * (1.0 - f) - q + (1.0 - a) * (q - f);
    Nonneg(top, room);
    assert g * (big * f) + top * (1.0 - a * q) - (y * f + th * top * (1.0 - f))
        == (g * big + top * (1.0 - a) - y) * f + top * room;
  }

  lemma RestMore(c: Curves, s: Spec, full: real, g: real, d: real, more: real, e: real, j: real)
    requires Lawful(c) && ValidSpec(s) && full > 0.0
    ensures Rest(c, s, full, g, d + more, (e + j) / full)
         == Blend(g, Top(s, full), Times(Share(c, s, d), Share(c, s, more)),
                  Times(Share(c, s, e / full), Share(c, s, j / full)))
  {
    hide Blend, Top, Share, Times;
    ShareAdds(c, s, d, more, d + more);
    QuotientAdds(e, j, full);
    ShareAdds(c, s, e / full, j / full, (e + j) / full);
  }

  lemma QuotientAdds(x: real, y: real, n: real)
    requires n != 0.0
    ensures (x + y) / n == x / n + y / n
  {}

  function EnergyOf(p: Piece): real {
    p.watts * p.secs
  }

  /** Its part of full scale, its rise and its energy. */
  lemma PieceFactors(c: Curves, s: Spec, full: real, p: Piece) returns (th: real, w: real)
    requires Lawful(c) && ValidSpec(s) && full > 0.0 && 0.0 <= p.secs && 0.0 <= p.watts <= full
    ensures var f, q := Share(c, s, p.secs), Share(c, s, EnergyOf(p) / full);
      0.0 < f <= q <= 1.0 - th * (1.0 - f)
    ensures w == p.watts * s.trCoil == th * Top(s, full)
  {
    th, w := p.watts / full, p.watts * s.trCoil;
    var j := EnergyOf(p);
    var z, x := p.secs / s.tauCoil, j / full / s.tauCoil;
    DivideTimes(p.watts, full);
    PartOf(p.watts, full);
    QuotientNonneg(p.secs, s.tauCoil);
    PartIs(p.watts, p.secs, j, full, s.tauCoil, th, z, x);
    DecayUnderChord(c, th, z, x);
    DecayAtMostOne(c, z);
    DecayAntitone(c, x, z);
    assert th * (full * s.trCoil) == (th * full) * s.trCoil;
  }

  lemma PartOf(x: real, n: real)
    requires 0.0 <= x <= n && n > 0.0
    ensures 0.0 <= x / n <= 1.0
  {
    QuotientNonneg(x, n);
    DivideOrder(x, 1.0, n);
  }

  lemma PartIs(w: real, d: real, j: real, full: real, tau: real, th: real, z: real, x: real)
    requires full > 0.0 && tau > 0.0 && th == w / full && z == d / tau && j == w * d && x == j / full / tau
    requires 0.0 <= th <= 1.0 && z >= 0.0
    ensures x == th * z <= z
  {
    var i, k := 1.0 / full, 1.0 / tau;
    assert w / full == w * i && d / tau == d * k && j / full / tau == w * d * i * k;
    ScaleOrder(z, th, 1.0);
  }

  /** The coil after one piece. */
  function After(c: Curves, s: Spec, m: real, p: Piece, y: real): real
    requires s.tauCoil != 0.0
  {
    Lag(y, m + p.watts * s.trCoil, 1.0 - Share(c, s, p.secs))
  }

  lemma AfterIs(c: Curves, s: Spec, m: real, p: Piece, y: real, w: real)
    requires ValidSpec(s) && w == p.watts * s.trCoil
    ensures After(c, s, m, p, y) - m == Blend(y - m, w, Share(c, s, p.secs), Share(c, s, p.secs))
  {
    hide Share;
    LagGap(y, m, w, Share(c, s, p.secs));
  }

  /** One more piece: its energy at full scale, at its end, leaves no less. */
  lemma PieceUnder(c: Curves, s: Spec, full: real, m: real, p: Piece, y: real, x: real, d: real, e: real)
    requires Lawful(c) && ValidSpec(s) && full > 0.0 && 0.0 <= p.secs && 0.0 <= p.watts <= full
    requires e >= 0.0 && y - m <= Rest(c, s, full, x - m, d, e / full)
    ensures After(c, s, m, p, y) - m <= Rest(c, s, full, x - m, d + p.secs, (e + EnergyOf(p)) / full)
  {
    hide Blend, Top, Share, Times, After, EnergyOf;
    var th, w := PieceFactors(c, s, full, p);
    var j := EnergyOf(p);
    QuotientNonneg(e, full);
    ShareOrder(c, s, 0.0, e / full);
    RestMore(c, s, full, x - m, d, p.secs, e, j);
    TopNonneg(s, full);
    PieceRest(y - m, x - m, Share(c, s, d), Share(c, s, p.secs), Share(c, s, e / full), Share(c, s, j / full),
              th, Top(s, full), w);
    AfterIs(c, s, m, p, y, w);
  }

  lemma LastSums(ps: seq<Piece>)
    requires ps != []
    ensures var p, front := ps[|ps| - 1], ps[..|ps| - 1];
      Secs(ps) == Secs(front) + p.secs && Joules(ps) == Joules(front) + EnergyOf(p)
  {}

  lemma LastPiece(c: Curves, s: Spec, m: real, ps: seq<Piece>, x: real)
    requires ValidSpec(s) && ps != []
    ensures Coil(c, s, m, ps, x) == After(c, s, m, ps[|ps| - 1], Coil(c, s, m, ps[..|ps| - 1], x))
  {}

  // ---- one sub-step -------------------------------------------------------------------------

  lemma RestAtOnce(c: Curves, s: Spec, full: real, g: real)
    requires Lawful(c) && ValidSpec(s)
    ensures Rest(c, s, full, g, 0.0, 0.0) == g
  {
    DecayInverse(c, 0.0);
  }

  /** Pieces under full scale leave the coil no hotter than their energy at full scale at the end. */
  lemma {:induction false} CoilUnder(c: Curves, s: Spec, full: real, m: real, ps: seq<Piece>, x: real)
    requires Lawful(c) && ValidSpec(s) && full > 0.0 && Capped(full, ps)
    ensures Coil(c, s, m, ps, x) - m <= Rest(c, s, full, x - m, Secs(ps), Joules(ps) / full)
  {
    hide Rest;
    if ps == [] {
      RestAtOnce(c, s, full, x - m);
    } else {
      hide Coil, After, Secs, Joules, EnergyOf;
      var l := |ps| - 1;
      var front := ps[..l];
      CoilUnder(c, s, full, m, front, x);
      PrefixSums(ps, l);
      LastPiece(c, s, m, ps, x);
      LastSums(ps);
      PieceUnder(c, s, full, m, ps[l], Coil(c, s, m, front, x), x, Secs(front), Joules(front));
    }
  }

  lemma {:induction false} JoulesUnder(full: real, ps: seq<Piece>)
    requires Capped(full, ps)
    ensures Joules(ps) <= full * Secs(ps)
  {
    if ps != [] {
      var l := |ps| - 1;
      JoulesUnder(full, ps[..l]);
      ScaleOrder(ps[l].secs, ps[l].watts, full);
      assert full * (Secs(ps[..l]) + ps[l].secs) == full * Secs(ps[..l]) + full * ps[l].secs;
    }
  }

  /** A gap over the magnet: the start, or all of the energy at once at full scale. */
  lemma EarlyTerms(g: real, top: real, fd: real, fe: real, fu: real)
    requires g >= 0.0 && 0.0 <= fd <= fe && fu <= fe <= 1.0
    ensures Blend(g, top, fd, fe) <= Max(g, Blend(g, top, fu, fu))
  {
    ScaleOrder(g, fd, fe);
    if top <= g {
      Nonneg(g - top, 1.0 - fe);
      assert g - (g * fe + top * (1.0 - fe)) == (g - top) * (1.0 - fe);
    } else {
      Nonneg(top - g, fe - fu);
      assert g * fu + top * (1.0 - fu) - (g * fe + top * (1.0 - fe)) == (top - g) * (fe - fu);
    }
  }

  /** A gap under it: the late end. */
  lemma LateTerms(g: real, top: real, fd: real, fe: real, fh: real, fu: real)
    requires top >= 0.0 && fu <= fe && ((g <= 0.0 && fh <= fd) || fh == fd)
    ensures Blend(g, top, fd, fe) <= Blend(g, top, fh, fu)
  {
    Nonneg(top, fe - fu);
    if fh != fd { Nonneg(-g, fd - fh); }
    assert g * fh + top * (1.0 - fu) - (g * fd + top * (1.0 - fe)) == -g * (fd - fh) + top * (fe - fu);
  }

  /** At any moment of the sub-step the most is the start, the early end or the late end; and at its
      end the late end. */
  lemma RestIsUnder(c: Curves, s: Spec, full: real, g: real, d: real, e: real, h: real, u: real)
    requires Lawful(c) && ValidSpec(s) && full > 0.0 && 0.0 <= d <= h && 0.0 <= e <= u && e <= d
    ensures Rest(c, s, full, g, d, e)
         <= Max(Max(g, Rest(c, s, full, g, u, u)), Rest(c, s, full, g, h, u))
    ensures d == h ==> Rest(c, s, full, g, d, e) <= Rest(c, s, full, g, h, u)
  {
    hide Blend, Top, Share;
    ShareOrder(c, s, e, d);
    ShareOrder(c, s, d, h);
    ShareOrder(c, s, e, u);
    TopNonneg(s, full);
    var fd, fe, fh, fu := Share(c, s, d), Share(c, s, e), Share(c, s, h), Share(c, s, u);
    if g >= 0.0 {
      EarlyTerms(g, Top(s, full), fd, fe, fu);
    } else {
      LateTerms(g, Top(s, full), fd, fe, fh, fu);
    }
    if d == h { LateTerms(g, Top(s, full), fd, fe, fh, fu); }
  }

  lemma LagMonotoneAt(x: real, y: real, a: real, b: real, w: real, k: real)
    requires 0.0 <= k < 1.0 && x <= y && a <= b
    ensures Lag(x, a + w, k) <= Lag(y, b + w, k)
  {
    Nonneg(1.0 - k, y - x);
    Nonneg(k, b - a);
    LagDifference(x, y, a + w, b + w, k);
  }

  lemma PieceRises(c: Curves, s: Spec, m: real, o: real, p: Piece, x: real, y: real)
    requires Lawful(c) && ValidSpec(s) && p.secs >= 0.0 && m <= o && x <= y
    ensures After(c, s, m, p, x) <= After(c, s, o, p, y)
  {
    hide Share;
    ShareOrder(c, s, 0.0, p.secs);
    LagMonotoneAt(x, y, m, o, p.watts * s.trCoil, 1.0 - Share(c, s, p.secs));
  }

  /** A hotter start and a hotter magnet leave no cooler coil. */
  lemma {:induction false} CoilRises(c: Curves, s: Spec, m: real, o: real, ps: seq<Piece>, x: real, y: real)
    requires Lawful(c) && ValidSpec(s) && Pieces(ps) && m <= o && x <= y
    ensures Coil(c, s, m, ps, x) <= Coil(c, s, o, ps, y)
  {
    if ps != [] {
      var l := |ps| - 1;
      assert ps[l].secs >= 0.0 && Pieces(ps[..l]);
      hide Coil, After, Pieces;
      CoilRises(c, s, m, o, ps[..l], x, y);
      LastPiece(c, s, m, ps, x);
      LastPiece(c, s, o, ps, y);
      PieceRises(c, s, m, o, ps[l], Coil(c, s, m, ps[..l], x), Coil(c, s, o, ps[..l], y));
    }
  }

  /** The energy of any pieces of the sub-step lasts at full scale no longer than they did, nor than
      all that was charged. */
  lemma PiecesLast(full: real, b: Sub, j: nat)
    requires full > 0.0 && Played(full, b) && j <= |b.truth|
    ensures 0.0 <= Secs(b.truth[..j]) <= b.h && (j == |b.truth| ==> Secs(b.truth[..j]) == b.h)
    ensures 0.0 <= Joules(b.truth[..j]) / full <= Min(AtFull(full, b), Secs(b.truth[..j]))
  {
    hide Secs, Joules;
    var ps := b.truth[..j];
    PrefixSums(b.truth, j);
    JoulesUnder(full, ps);
    assert j == |b.truth| ==> ps == b.truth;
    QuotientNonneg(Joules(ps), full);
    QuotientOrder(Joules(ps), b.charged * b.h, full);
    DivideOrder(Joules(ps), Secs(ps), full);
  }

  /** However the sub-step was played, from no hotter: its coil at any moment, and at its end. */
  lemma SubIsUnder(c: Curves, s: Spec, full: real, b: Sub, mt: real, m: real, xt: real, x: real, j: nat)
    requires Lawful(c) && ValidSpec(s) && full > 0.0 && Played(full, b) && j <= |b.truth|
    requires mt <= m && xt <= x
    ensures Coil(c, s, mt, b.truth[..j], xt)
         <= Max(Max(x, EarlyAfter(c, s, full, b, m, x)), LateAfter(c, s, full, b, m, x))
    ensures j == |b.truth| ==> Coil(c, s, mt, b.truth[..j], xt) <= LateAfter(c, s, full, b, m, x)
  {
    hide Coil, Secs, Joules, Rest;
    var ps := b.truth[..j];
    PiecesLast(full, b, j);
    CoilRises(c, s, mt, m, ps, xt, x);
    CoilUnder(c, s, full, m, ps, x);
    RestIsUnder(c, s, full, x - m, Secs(ps), Joules(ps) / full, b.h, AtFull(full, b));
  }

  // ---- over a run -----------------------------------------------------------------------------

  /** The coil after the sub-steps with every one's energy at full scale at its end. */
  function LateRun(c: Curves, s: Spec, full: real, bs: seq<Sub>, n: Nodes): real
    requires ValidSpec(s) && full > 0.0
  {
    if bs == [] then n.coil
    else
      var l := |bs| - 1;
      LateAfter(c, s, full, bs[l], Model(c, s, bs, n).magnet, LateRun(c, s, full, bs[..l], n))
  }

  /** After all late sub-steps and then the `i`th's energy at its start. */
  function EarlyPeak(c: Curves, s: Spec, full: real, bs: seq<Sub>, n: Nodes, i: nat): real
    requires ValidSpec(s) && full > 0.0 && i < |bs|
  {
    EarlyAfter(c, s, full, bs[i], Model(c, s, bs[..i + 1], n).magnet, LateRun(c, s, full, bs[..i], n))
  }

  /** The hottest the coil can have been over the `i`th sub-step, from the charges alone. */
  function Worst(c: Curves, s: Spec, full: real, bs: seq<Sub>, n: Nodes, i: nat): real
    requires ValidSpec(s) && full > 0.0 && i < |bs|
  {
    Max(Max(LateRun(c, s, full, bs[..i], n), EarlyPeak(c, s, full, bs, n, i)), LateRun(c, s, full, bs[..i + 1], n))
  }

  /** A run with these charges, played: what really came may be any pieces of up to the energies. */
  ghost predicate PlaysAs(full: real, bs: seq<Sub>, ds: seq<Sub>) {
    && |ds| == |bs|
    && forall i :: 0 <= i < |ds| ==> ds[i] == bs[i].(truth := ds[i].truth) && Played(full, ds[i])
  }

  /** The magnet the sub-step leaves, by what truly came and by what was charged. */
  function TrueMagnet(c: Curves, s: Spec, b: Sub, t: Nodes): real
    requires ValidSpec(s)
  {
    StepMagnet(KernelOf(c, s, b.h, b.ta), Mean(b), t)
  }

  function ChargedMagnet(c: Curves, s: Spec, b: Sub, n: Nodes): real
    requires ValidSpec(s)
  {
    StepMagnet(KernelOf(c, s, b.h, b.ta), b.charged, n)
  }

  /** What the plant's coil was after `j` pieces of the `i`th sub-step. */
  function PlantAt(c: Curves, s: Spec, ds: seq<Sub>, t: Nodes, i: nat, j: nat): real
    requires ValidSpec(s) && i < |ds| && j <= |ds[i].truth|
  {
    var at := Plant(c, s, ds[..i], t);
    Coil(c, s, TrueMagnet(c, s, ds[i], at), ds[i].truth[..j], at.coil)
  }

  lemma MagnetIsUnder(c: Curves, s: Spec, full: real, b: Sub, t: Nodes, n: Nodes)
    requires Lawful(c) && ValidSpec(s) && Played(full, b) && t.magnet <= n.magnet
    ensures TrueMagnet(c, s, b, t) <= ChargedMagnet(c, s, b, n)
  {
    KernelSound(c, s, b.h, b.ta);
    MeanIsCharged(b);
    MagnetMonotone(KernelOf(c, s, b.h, b.ta), Mean(b), b.charged, t, n);
  }

  /** A run's last sub-step. */
  lemma LastOf(c: Curves, s: Spec, full: real, bs: seq<Sub>, t: Nodes)
    requires ValidSpec(s) && full > 0.0 && bs != []
    ensures var l := |bs| - 1; var before := Plant(c, s, bs[..l], t);
      && Model(c, s, bs, t).magnet == ChargedMagnet(c, s, bs[l], Model(c, s, bs[..l], t))
      && Plant(c, s, bs, t).magnet == TrueMagnet(c, s, bs[l], before)
      && Plant(c, s, bs, t).coil == Coil(c, s, TrueMagnet(c, s, bs[l], before), bs[l].truth, before.coil)
      && LateRun(c, s, full, bs, t)
           == LateAfter(c, s, full, bs[l], Model(c, s, bs, t).magnet, LateRun(c, s, full, bs[..l], t))
  {
    hide Coil, KernelOf, StepMagnet, LateAfter, Mean;
  }

  lemma SameAfter(c: Curves, s: Spec, full: real, b: Sub, d: Sub, n: Nodes, m: real, x: real)
    requires ValidSpec(s) && full > 0.0 && d == b.(truth := d.truth)
    ensures ChargedMagnet(c, s, d, n) == ChargedMagnet(c, s, b, n)
    ensures LateAfter(c, s, full, d, m, x) == LateAfter(c, s, full, b, m, x)
    ensures EarlyAfter(c, s, full, d, m, x) == EarlyAfter(c, s, full, b, m, x)
  {
    assert d.h == b.h && d.charged == b.charged && d.ta == b.ta;
    assert AtFull(full, d) == AtFull(full, b);
    hide AtFull, Rest, StepMagnet, KernelOf;
  }

  lemma RunStepIsUnder(c: Curves, s: Spec, full: real, b: Sub, d: Sub, t: Nodes, n: Nodes, x: real)
    requires Lawful(c) && ValidSpec(s) && full > 0.0 && Played(full, d) && d == b.(truth := d.truth)
    requires t.magnet <= n.magnet && t.coil <= x
    ensures TrueMagnet(c, s, d, t) <= ChargedMagnet(c, s, b, n)
    ensures Coil(c, s, TrueMagnet(c, s, d, t), d.truth, t.coil)
         <= LateAfter(c, s, full, b, ChargedMagnet(c, s, b, n), x)
  {
    MagnetIsUnder(c, s, full, d, t, n);
    SameAfter(c, s, full, b, d, n, ChargedMagnet(c, s, b, n), x);
    hide TrueMagnet, ChargedMagnet, Coil, LateAfter, EarlyAfter;
    SubIsUnder(c, s, full, d, TrueMagnet(c, s, d, t), ChargedMagnet(c, s, b, n), t.coil, x, |d.truth|);
    assert d.truth[..|d.truth|] == d.truth;
  }

  lemma {:induction false} RunIsUnder(c: Curves, s: Spec, full: real, bs: seq<Sub>, ds: seq<Sub>, t: Nodes, n: Nodes)
    requires Lawful(c) && ValidSpec(s) && full > 0.0 && PlaysAs(full, bs, ds) && Below(t, n)
    ensures Plant(c, s, ds, t).magnet <= Model(c, s, bs, n).magnet
    ensures Plant(c, s, ds, t).coil <= LateRun(c, s, full, bs, n)
  {
    if bs != [] {
      var l := |bs| - 1;
      RunIsUnder(c, s, full, bs[..l], ds[..l], t, n);
      LastOf(c, s, full, bs, n);
      LastOf(c, s, full, ds, t);
      hide Plant, Model, LateRun, LateAfter, TrueMagnet, ChargedMagnet, Coil;
      RunStepIsUnder(c, s, full, bs[l], ds[l], Plant(c, s, ds[..l], t), Model(c, s, bs[..l], n),
                     LateRun(c, s, full, bs[..l], n));
    }
  }

  /** Over every run with these charges, from no hotter: the coil never passes the worst. */
  lemma NeverPastWorst(c: Curves, s: Spec, full: real, bs: seq<Sub>, ds: seq<Sub>, t: Nodes, n: Nodes, i: nat, j: nat)
    requires Lawful(c) && ValidSpec(s) && full > 0.0 && PlaysAs(full, bs, ds) && Below(t, n)
    requires i < |ds| && j <= |ds[i].truth|
    ensures PlantAt(c, s, ds, t, i, j) <= Worst(c, s, full, bs, n, i)
  {
    RunIsUnder(c, s, full, bs[..i], ds[..i], t, n);
    assert bs[..i + 1][..i] == bs[..i];
    LastOf(c, s, full, bs[..i + 1], n);
    hide Plant, Model, LateRun, Coil;
    MagnetIsUnder(c, s, full, ds[i], Plant(c, s, ds[..i], t), Model(c, s, bs[..i], n));
    SameAfter(c, s, full, bs[i], ds[i], Model(c, s, bs[..i], n), Model(c, s, bs[..i + 1], n).magnet,
              LateRun(c, s, full, bs[..i], n));
    hide TrueMagnet, ChargedMagnet, LateAfter, EarlyAfter;
    SubIsUnder(c, s, full, ds[i], TrueMagnet(c, s, ds[i], Plant(c, s, ds[..i], t)),
               ChargedMagnet(c, s, bs[i], Model(c, s, bs[..i], n)), Plant(c, s, ds[..i], t).coil,
               LateRun(c, s, full, bs[..i], n), j);
  }

  // ---- and it is reached ------------------------------------------------------------------------

  function LateTruth(full: real, b: Sub): Sub
    requires full > 0.0
  {
    var u := AtFull(full, b);
    b.(truth := [Piece(b.h - u, 0.0), Piece(u, full)])
  }

  function EarlyTruth(full: real, b: Sub): Sub
    requires full > 0.0
  {
    var u := AtFull(full, b);
    b.(truth := [Piece(u, full), Piece(b.h - u, 0.0)])
  }

  /** What the charges of a run must be for anything to be played as it. */
  ghost predicate Playable(full: real, bs: seq<Sub>) {
    forall i :: 0 <= i < |bs| ==> bs[i].h > 0.0 && 0.0 <= bs[i].charged <= full
  }

  function AllLate(full: real, bs: seq<Sub>): (ds: seq<Sub>)
    requires full > 0.0
    ensures |ds| == |bs| && forall i :: 0 <= i < |bs| ==> ds[i] == LateTruth(full, bs[i])
  {
    seq(|bs|, i requires 0 <= i < |bs| => LateTruth(full, bs[i]))
  }

  lemma TwoPieces(a: Piece, b: Piece)
    ensures Secs([a, b]) == a.secs + b.secs
    ensures Joules([a, b]) == a.watts * a.secs + b.watts * b.secs
  {
    assert [a, b][..1] == [a] && [a][..0] == [];
    assert Secs([a]) == a.secs && Joules([a]) == a.watts * a.secs;
  }

  lemma FullTime(full: real, b: Sub) returns (u: real)
    requires full > 0.0 && b.h > 0.0 && 0.0 <= b.charged <= full
    ensures u == AtFull(full, b) && 0.0 <= u <= b.h && full * u == b.charged * b.h
    ensures b.charged * b.h / b.h == b.charged
  {
    u := AtFull(full, b);
    Nonneg(b.charged, b.h);
    QuotientNonneg(b.charged * b.h, full);
    ScaleOrder(b.h, b.charged, full);
    DivideOrder(b.charged * b.h, b.h, full);
    DivideTimes(b.charged * b.h, full);
  }

  lemma TruthsArePlayed(full: real, b: Sub)
    requires full > 0.0 && b.h > 0.0 && 0.0 <= b.charged <= full
    ensures Played(full, LateTruth(full, b)) && Mean(LateTruth(full, b)) == b.charged
    ensures Played(full, EarlyTruth(full, b)) && Mean(EarlyTruth(full, b)) == b.charged
  {
    hide Secs, Joules, AtFull;
    var u := FullTime(full, b);
    var late, early := LateTruth(full, b).truth, EarlyTruth(full, b).truth;
    TwoPieces(late[0], late[1]);
    TwoPieces(early[0], early[1]);
    assert Joules(late) == b.charged * b.h && Joules(early) == b.charged * b.h;
  }

  lemma PieceCoil(c: Curves, s: Spec, m: real, y: real, p: Piece)
    requires ValidSpec(s)
    ensures Coil(c, s, m, [p], y) == Lag(y, m + p.watts * s.trCoil, 1.0 - Share(c, s, p.secs))
  {
    assert [p][..0] == [];
  }

  lemma PairCoil(c: Curves, s: Spec, m: real, y: real, p: Piece, q: Piece)
    requires ValidSpec(s)
    ensures Coil(c, s, m, [p, q], y) == Coil(c, s, m, [q], Coil(c, s, m, [p], y))
  {
    assert [p, q][..1] == [p];
    PieceCoil(c, s, m, Coil(c, s, m, [p], y), q);
  }

  lemma FullPiece(c: Curves, s: Spec, m: real, y: real, u: real, full: real)
    requires ValidSpec(s)
    ensures Coil(c, s, m, [Piece(u, full)], y) == Lag(y, m + Top(s, full), 1.0 - Share(c, s, u))
  {
    hide Share;
    PieceCoil(c, s, m, y, Piece(u, full));
  }

  lemma QuietPiece(c: Curves, s: Spec, m: real, y: real, d: real)
    requires ValidSpec(s)
    ensures Coil(c, s, m, [Piece(d, 0.0)], y) == Lag(y, m, 1.0 - Share(c, s, d))
  {
    hide Share;
    PieceCoil(c, s, m, y, Piece(d, 0.0));
  }

  lemma EarlyIsReached(c: Curves, s: Spec, full: real, b: Sub, m: real, x: real)
    requires Lawful(c) && ValidSpec(s) && full > 0.0
    ensures Coil(c, s, m, EarlyTruth(full, b).truth[..1], x) == EarlyAfter(c, s, full, b, m, x)
  {
    hide Coil, AtFull, Share;
    var q := Piece(AtFull(full, b), full);
    assert EarlyTruth(full, b).truth[..1] == [q];
    FullPiece(c, s, m, x, q.secs, full);
    LagGap(x, m, Top(s, full), Share(c, s, q.secs));
  }

  lemma LateIsReached(c: Curves, s: Spec, full: real, b: Sub, m: real, x: real)
    requires Lawful(c) && ValidSpec(s) && full > 0.0
    ensures Coil(c, s, m, LateTruth(full, b).truth, x) == LateAfter(c, s, full, b, m, x)
  {
    hide Coil, AtFull, Share, Blend, Times, Lag, Top;
    var u := AtFull(full, b);
    var p, q := Piece(b.h - u, 0.0), Piece(u, full);
    var y := Coil(c, s, m, [p], x);
    PairCoil(c, s, m, x, p, q);
    QuietPiece(c, s, m, x, b.h - u);
    FullPiece(c, s, m, y, u, full);
    ShareAdds(c, s, b.h - u, u, b.h);
    LateBlends(x, m, y, Share(c, s, b.h - u), Share(c, s, u), Top(s, full));
    assert LateTruth(full, b).truth == [p, q];
  }

  /** Quiet, then full scale. */
  lemma LateBlends(x: real, m: real, y: real, a: real, f: real, top: real)
    requires y == Lag(x, m, 1.0 - a)
    ensures Lag(y, m + top, 1.0 - f) == m + Blend(x - m, top, Times(a, f), f)
  {
    assert y - m == (x - m) * a;
    assert Lag(y, m + top, 1.0 - f) - m == (y - m) * f + top * (1.0 - f);
    assert (x - m) * a * f == (x - m) * (a * f);
  }

  lemma {:induction false} LateRunIsReached(c: Curves, s: Spec, full: real, bs: seq<Sub>, n: Nodes)
    requires Lawful(c) && ValidSpec(s) && full > 0.0 && Playable(full, bs)
    ensures Plant(c, s, AllLate(full, bs), n) == Nodes(LateRun(c, s, full, bs, n), Model(c, s, bs, n).magnet)
  {
    if bs != [] {
      var l, ds := |bs| - 1, AllLate(full, bs);
      LateRunIsReached(c, s, full, bs[..l], n);
      assert ds[..l] == AllLate(full, bs[..l]);
      LastOf(c, s, full, bs, n);
      LastOf(c, s, full, ds, n);
      TruthsArePlayed(full, bs[l]);
      SameMagnet(c, s, bs[l], ds[l], Plant(c, s, ds[..l], n), Model(c, s, bs[..l], n));
      hide Plant, Model, LateRun, LateAfter, Coil, TrueMagnet, ChargedMagnet;
      LateIsReached(c, s, full, bs[l], Model(c, s, bs, n).magnet, LateRun(c, s, full, bs[..l], n));
    }
  }

  lemma SameMagnet(c: Curves, s: Spec, b: Sub, d: Sub, t: Nodes, n: Nodes)
    requires ValidSpec(s) && d == b.(truth := d.truth) && Mean(d) == b.charged && t.magnet == n.magnet
    ensures TrueMagnet(c, s, d, t) == ChargedMagnet(c, s, b, n)
  {}

  /** The run that is late until its `i`th sub-step, and early in it. */
  function ThenEarly(full: real, bs: seq<Sub>, i: nat): (ds: seq<Sub>)
    requires full > 0.0 && i < |bs|
    ensures |ds| == |bs|
  {
    AllLate(full, bs)[i := EarlyTruth(full, bs[i])]
  }

  lemma PlayedAs(full: real, bs: seq<Sub>, i: nat)
    requires full > 0.0 && Playable(full, bs) && i < |bs|
    ensures PlaysAs(full, bs, AllLate(full, bs)) && PlaysAs(full, bs, ThenEarly(full, bs, i))
  {
    hide Played;
    forall x | 0 <= x < |bs|
      ensures Played(full, LateTruth(full, bs[x])) && Played(full, EarlyTruth(full, bs[x]))
    {
      TruthsArePlayed(full, bs[x]);
    }
  }

  /** The `i`th sub-step late, or early, after all late ones. */
  lemma SubsAreReached(c: Curves, s: Spec, full: real, bs: seq<Sub>, n: Nodes, i: nat)
    requires Lawful(c) && ValidSpec(s) && full > 0.0 && Playable(full, bs) && i < |bs|
    ensures var late := AllLate(full, bs); var x := LateRun(c, s, full, bs[..i], n);
      && |late[i].truth| == 2
      && PlantAt(c, s, late, n, i, 0) == x
      && PlantAt(c, s, late, n, i, 2) == LateRun(c, s, full, bs[..i + 1], n)
    ensures var early := ThenEarly(full, bs, i);
      |early[i].truth| == 2 && PlantAt(c, s, early, n, i, 1) == EarlyPeak(c, s, full, bs, n, i)
  {
    var late, early := AllLate(full, bs), ThenEarly(full, bs, i);
    LateRunIsReached(c, s, full, bs[..i], n);
    assert late[..i] == AllLate(full, bs[..i]) && early[..i] == late[..i];
    var x, m := LateRun(c, s, full, bs[..i], n), Model(c, s, bs[..i + 1], n).magnet;
    assert bs[..i + 1][..i] == bs[..i];
    LastOf(c, s, full, bs[..i + 1], n);
    TruthsArePlayed(full, bs[i]);
    SameMagnet(c, s, bs[i], late[i], Plant(c, s, late[..i], n), Model(c, s, bs[..i], n));
    SameMagnet(c, s, bs[i], early[i], Plant(c, s, late[..i], n), Model(c, s, bs[..i], n));
    assert Coil(c, s, m, late[i].truth[..0], x) == x;
    hide Plant, Model, LateRun, LateAfter, EarlyAfter, Coil, TrueMagnet, ChargedMagnet;
    LateIsReached(c, s, full, bs[i], m, x);
    EarlyIsReached(c, s, full, bs[i], m, x);
    assert late[i].truth[..2] == late[i].truth;
  }

  /** The three that make up the worst each happen in some run with these charges. */
  lemma WorstIsReached(c: Curves, s: Spec, full: real, bs: seq<Sub>, n: Nodes, i: nat)
      returns (ds: seq<Sub>, j: nat)
    requires Lawful(c) && ValidSpec(s) && full > 0.0 && Playable(full, bs) && i < |bs|
    ensures PlaysAs(full, bs, ds) && j <= |ds[i].truth|
    ensures PlantAt(c, s, ds, n, i, j) == Worst(c, s, full, bs, n, i)
  {
    hide PlaysAs, Played, PlantAt, EarlyPeak, LateRun;
    PlayedAs(full, bs, i);
    SubsAreReached(c, s, full, bs, n, i);
    if Worst(c, s, full, bs, n, i) == EarlyPeak(c, s, full, bs, n, i) {
      ds, j := ThenEarly(full, bs, i), 1;
    } else {
      ds, j := AllLate(full, bs), if Worst(c, s, full, bs, n, i) == LateRun(c, s, full, bs[..i], n) then 0 else 2;
    }
  }

  // ---- what a level that is never passed needs ----------------------------------------------

  /** No run with these charges, from no hotter, takes the coil over the sub-steps' levels. */
  ghost predicate NeverOver(c: Curves, s: Spec, full: real, bs: seq<Sub>, n: Nodes, level: seq<real>)
    requires ValidSpec(s) && |level| == |bs|
  {
    forall ds: seq<Sub>, t: Nodes, i: nat, j: nat ::
      PlaysAs(full, bs, ds) && Below(t, n) && i < |ds| && j <= |ds[i].truth| ==> PlantAt(c, s, ds, t, i, j) <= level[i]
  }

  /** The levels are never passed if and only if the worst, which the charges alone give, is at or
      under each. */
  lemma NeverOverIff(c: Curves, s: Spec, full: real, bs: seq<Sub>, n: Nodes, level: seq<real>)
    requires Lawful(c) && ValidSpec(s) && full > 0.0 && Playable(full, bs) && |level| == |bs|
    ensures NeverOver(c, s, full, bs, n, level)
       <==> forall i :: 0 <= i < |bs| ==> Worst(c, s, full, bs, n, i) <= level[i]
  {
    hide PlantAt, Worst, Played;
    if NeverOver(c, s, full, bs, n, level) {
      forall i | 0 <= i < |bs|
        ensures Worst(c, s, full, bs, n, i) <= level[i]
      {
        var ds, j := WorstIsReached(c, s, full, bs, n, i);
        assert Below(n, n);
      }
    }
    if forall i :: 0 <= i < |bs| ==> Worst(c, s, full, bs, n, i) <= level[i] {
      forall ds: seq<Sub>, t: Nodes, i: nat, j: nat |
        PlaysAs(full, bs, ds) && Below(t, n) && i < |ds| && j <= |ds[i].truth|
        ensures PlantAt(c, s, ds, t, i, j) <= level[i]
      {
        NeverPastWorst(c, s, full, bs, ds, t, n, i, j);
      }
    }
  }

  /** The bounds the program keeps, one a sub-step. */
  function Bounds(c: Curves, s: Spec, bs: seq<Sub>, n: Nodes): (bounds: seq<real>)
    requires ValidSpec(s)
    ensures |bounds| == |bs|
  {
    seq(|bs|, i requires 0 <= i < |bs| =>
      Bound(KernelOf(c, s, bs[i].h, bs[i].ta), bs[i].charged, Model(c, s, bs[..i], n)))
  }

  /** No run with these charges passes any of the program's bounds exactly when the worst does not. */
  lemma BoundsHoldIff(c: Curves, s: Spec, full: real, bs: seq<Sub>, n: Nodes)
    requires Lawful(c) && ValidSpec(s) && full > 0.0 && Playable(full, bs)
    ensures NeverOver(c, s, full, bs, n, Bounds(c, s, bs, n))
       <==> forall i :: 0 <= i < |bs| ==> Worst(c, s, full, bs, n, i) <= Bounds(c, s, bs, n)[i]
  {
    NeverOverIff(c, s, full, bs, n, Bounds(c, s, bs, n));
  }

  /** No sub-step's bound reached the limit: the run left no fault behind. */
  ghost predicate Unlatched(c: Curves, s: Spec, bs: seq<Sub>, n: Nodes)
    requires ValidSpec(s)
  {
    forall i :: 0 <= i < |bs| ==> Bounds(c, s, bs, n)[i] < s.tLimit
  }

  /** No run with these charges, from no hotter, reaches the limit. */
  ghost predicate NeverAtLimit(c: Curves, s: Spec, full: real, bs: seq<Sub>, n: Nodes)
    requires ValidSpec(s)
  {
    forall ds: seq<Sub>, t: Nodes, i: nat, j: nat ::
      PlaysAs(full, bs, ds) && Below(t, n) && i < |ds| && j <= |ds[i].truth| ==> PlantAt(c, s, ds, t, i, j) < s.tLimit
  }

  /** No fault means that the coil was never at the limit if and only if the worst was not: for the
      charges of every run. */
  lemma UnlatchedIsUnderIff(c: Curves, s: Spec, full: real, bs: seq<Sub>, n: Nodes)
    requires Lawful(c) && ValidSpec(s) && full > 0.0 && Playable(full, bs)
    ensures (Unlatched(c, s, bs, n) ==> NeverAtLimit(c, s, full, bs, n))
       <==> (Unlatched(c, s, bs, n) ==> forall i :: 0 <= i < |bs| ==> Worst(c, s, full, bs, n, i) < s.tLimit)
  {
    hide PlantAt, Worst, Played, Unlatched;
    if NeverAtLimit(c, s, full, bs, n) {
      forall i | 0 <= i < |bs|
        ensures Worst(c, s, full, bs, n, i) < s.tLimit
      {
        var ds, j := WorstIsReached(c, s, full, bs, n, i);
        assert Below(n, n);
      }
    }
    if forall i :: 0 <= i < |bs| ==> Worst(c, s, full, bs, n, i) < s.tLimit {
      forall ds: seq<Sub>, t: Nodes, i: nat, j: nat |
        PlaysAs(full, bs, ds) && Below(t, n) && i < |ds| && j <= |ds[i].truth|
        ensures PlantAt(c, s, ds, t, i, j) < s.tLimit
      {
        NeverPastWorst(c, s, full, bs, ds, t, n, i, j);
      }
    }
  }
}
