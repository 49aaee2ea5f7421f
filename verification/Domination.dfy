/** What a charge promises of the coils and the budgets together (src/guard.rs, `charge`): a driver whose
    account is over the truth stays so, whatever it really played in the time charged. */
module Domination {
  import opened Config
  import opened Curves
  import opened Reals
  import opened Thermal
  import opened Budget
  import opened Signals
  import opened SpreadEnergy
  import opened WorstSpread
  import opened Speaker
  import Bank
  import Inversion

  /** The budgets hold at least the energy before the gain in every window of up to a minute. */
  ghost predicate Holds(h: seq<Entry>, past: seq<Entry>, full: real) {
    && Proper(h) && Proper(past)
    && forall w :: 0.0 <= w <= MINUTE ==> Truth(past, w) <= Energy(h, w, full)
  }

  /** And the nodes are no hotter than the account's. */
  ghost predicate Over(now: Snap, t: Nodes, past: seq<Entry>, full: real) {
    Below(t, now.nodes) && Holds(now.history, past, full)
  }

  // ---- the coil ---------------------------------------------------------------------------------

  /** Pieces of at most `p` leave the coil no hotter than `p` all along. */
  lemma {:induction false} CoilUnderConstant(c: Curves, s: Spec, p: real, m: real, ps: seq<Piece>, x: real)
    requires Lawful(c) && ValidSpec(s) && p > 0.0 && Capped(p, ps)
    ensures Coil(c, s, m, ps, x) <= Lag(x, m + Top(s, p), 1.0 - Share(c, s, Secs(ps)))
  {
    hide Coil, Share, Top, Secs, Joules;
    PrefixSums(ps, |ps|);
    assert ps[..|ps|] == ps;
    CoilUnder(c, s, p, m, ps, x);
    JoulesUnder(p, ps);
    DivideOrder(Joules(ps), Secs(ps), p);
    QuotientNonneg(Joules(ps), p);
    ShareOrder(c, s, Joules(ps) / p, Secs(ps));
    TopNonneg(s, p);
    ScaleOrder(Top(s, p), 1.0 - Share(c, s, Joules(ps) / p), 1.0 - Share(c, s, Secs(ps)));
    LagGap(x, m, Top(s, p), Share(c, s, Secs(ps)));
  }

  /** A sub-step of `h` seconds in which no piece was over `p`. */
  ghost predicate Quieter(b: Sub, h: real, ta: real, p: real) {
    && b.h == h > 0.0 && b.ta == ta && b.charged == p
    && Capped(p, b.truth) && Secs(b.truth) == h
  }

  lemma QuieterIsCharged(b: Sub, h: real, ta: real, p: real)
    requires Quieter(b, h, ta, p) && p > 0.0
    ensures Charged(b) && Played(p, b)
  {
    JoulesUnder(p, b.truth);
  }

  lemma StepIs(c: Curves, s: Spec, h: real, ta: real, p: real, n: Nodes)
    requires ValidSpec(s)
    ensures var k := KernelOf(c, s, h, ta); var m := StepMagnet(k, p, n);
      Step(k, p, n) == Nodes(Lag(n.coil, m + Top(s, p), 1.0 - Share(c, s, h)), m)
  {}

  /** One sub-step. */
  lemma QuieterStaysBelow(c: Curves, s: Spec, b: Sub, h: real, ta: real, p: real, t: Nodes, n: Nodes)
    requires Lawful(c) && ValidSpec(s) && p > 0.0 && Quieter(b, h, ta, p) && Below(t, n)
    ensures var m := TrueMagnet(c, s, b, t);
      Below(Nodes(Coil(c, s, m, b.truth, t.coil), m), Step(KernelOf(c, s, h, ta), p, n))
  {
    QuieterIsCharged(b, h, ta, p);
    MagnetIsUnder(c, s, p, b, t, n);
    StepIs(c, s, h, ta, p, n);
    hide Coil, Share, Top, Secs, Lag, TrueMagnet, Step, StepMagnet, KernelOf;
    var mt, m := TrueMagnet(c, s, b, t), ChargedMagnet(c, s, b, n);
    CoilRises(c, s, mt, m, b.truth, t.coil, n.coil);
    CoilUnderConstant(c, s, p, m, b.truth, n.coil);
  }

  /** And a run of them. */
  lemma {:induction false} RunStaysBelow(c: Curves, s: Spec, bs: seq<Sub>, h: real, ta: real, p: real, t: Nodes, n: Nodes)
    requires Lawful(c) && ValidSpec(s) && p > 0.0 && Below(t, n)
    requires forall i :: 0 <= i < |bs| ==> Quieter(bs[i], h, ta, p)
    ensures Below(Plant(c, s, bs, t), Run(Const(KernelOf(c, s, h, ta), |bs|, p), n))
  {
    hide Quieter;
    var k := KernelOf(c, s, h, ta);
    if bs != [] {
      hide Plant, Run, Coil, Step, TrueMagnet, KernelOf, Model, LateRun;
      var l := |bs| - 1;
      RunStaysBelow(c, s, bs[..l], h, ta, p, t, n);
      QuieterStaysBelow(c, s, bs[l], h, ta, p, Plant(c, s, bs[..l], t), Run(Const(k, l, p), n));
      LastOf(c, s, p, bs, t);
      RunOneMore(k, l, p, n);
    }
  }

  // ---- the budgets ------------------------------------------------------------------------------

  lemma BudgetStaysOver(h: seq<Entry>, past: seq<Entry>, e: Entry, ps: seq<Entry>, w: real, full: real)
    requires Holds(h, past, full) && full > 0.0 && Recorded(e, ps, full) && 0.0 <= w <= MINUTE
    ensures Truth(past + ps, w) <= Energy(Record(h, e, full), w, full)
  {
    hide Record, Trim, Part;
    TruthAppend(past, ps, w);
    RecordedEnergy(h, e, w, full);
    StepCovers(e, ps, w, full);
  }

  /** A step that recorded what was played: the budgets still hold it. */
  lemma StepStaysOver(h: seq<Entry>, past: seq<Entry>, e: Entry, ps: seq<Entry>, full: real)
    requires Holds(h, past, full) && full > 0.0 && Recorded(e, ps, full)
    ensures Holds(Record(h, e, full), past + ps, full)
  {
    hide Truth, Energy, Record;
    RecordKeeps(h, e, full);
    ProperAppend(past, ps);
    forall w | 0.0 <= w <= MINUTE ensures Truth(past + ps, w) <= Energy(Record(h, e, full), w, full) {
      BudgetStaysOver(h, past, e, ps, w, full);
    }
  }

  lemma ProperAppend(a: seq<Entry>, b: seq<Entry>)
    requires Proper(a) && Proper(b)
    ensures Proper(a + b)
  {}

  // ---- together ---------------------------------------------------------------------------------

  /** What a driver really played over the `d` seconds of a charge: the coil's power cut where the account's
      sub-steps are and as finely as may be in between, none of it over `p`; and the program's own power,
      before the gain, within full scale. */
  ghost predicate PlayedOver(bs: seq<Sub>, ps: seq<Entry>, d: real, ta: real, p: real, full: real)
    requires d > 0.0
  {
    && |bs| == SubSteps(d) && (forall i :: 0 <= i < |bs| ==> Quieter(bs[i], d / SubSteps(d) as real, ta, p))
    && Proper(ps) && Within(ps, full) && Total(ps) == d
  }

  /** A driver over the truth is over it after a charge at `p`, full scale before the gain. */
  lemma ChargeStaysOver(c: Curves, s: Spec, was: Snap, p: real, d: real, ta: real, bs: seq<Sub>, ps: seq<Entry>,
                        t: Nodes, past: seq<Entry>, full: real)
    requires Lawful(c) && ValidSpec(s) && d > 0.0 && p > 0.0 && full == Inversion.FullScale(s) > 0.0
    requires PlayedOver(bs, ps, d, ta, p, full) && Over(was, t, past, full)
    ensures Over(Bank.StepSnap(c, s, was, p, full, d, ta), Plant(c, s, bs, t), past + ps, full)
  {
    hide Truth, Energy, Record, Run, Plant, Quieter, HeatPeak;
    RunStaysBelow(c, s, bs, d / SubSteps(d) as real, ta, p, t, was.nodes);
    var e := Entry(d, full);
    assert Recorded(e, ps, full) by { SumWithin(ps, full); }
    StepStaysOver(was.history, past, e, ps, full);
  }
}
