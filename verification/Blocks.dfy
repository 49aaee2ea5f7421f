/** What a period in blocks promises of the coil (src/model.rs, `step_period_pre`): the bounds of the thermal
    step, over all the sub-steps of all its blocks. */
module BlockRuns {
  import opened Config
  import opened Curves
  import opened Reals
  import opened Thermal
  import opened SpreadEnergy
  import Placement
  import Speaker
  import Bank

  /** What really came in a block of `h` seconds charged `p` watts: the energy of each of its sub-steps, spread
      over it anyhow. */
  ghost predicate IsBlock(x: seq<Sub>, p: real, h: real, ta: real)
    requires h > 0.0
  {
    && |x| == SubSteps(h)
    && forall i :: 0 <= i < |x| ==>
         Charged(x[i]) && x[i].charged == p && x[i].h == h / SubSteps(h) as real && x[i].ta == ta
  }

  ghost predicate AreBlocks(xs: seq<seq<Sub>>, powers: seq<real>, h: real, ta: real)
    requires h > 0.0
  {
    |xs| == |powers| && forall b :: 0 <= b < |xs| ==> IsBlock(xs[b], powers[b], h, ta)
  }

  /** Block after block. */
  function Flat(xs: seq<seq<Sub>>): seq<Sub> {
    if xs == [] then [] else Flat(xs[..|xs| - 1]) + xs[|xs| - 1]
  }

  lemma {:induction false} FlatIsCharged(xs: seq<seq<Sub>>, powers: seq<real>, h: real, ta: real)
    requires h > 0.0 && AreBlocks(xs, powers, h, ta)
    ensures forall i :: 0 <= i < |Flat(xs)| ==> Charged(Flat(xs)[i])
  {
    hide Charged;
    if xs != [] {
      var l := |xs| - 1;
      FlatIsCharged(xs[..l], powers[..l], h, ta);
    }
  }

  // ---- the program's side -----------------------------------------------------------------------

  lemma {:induction false} ModelAppend(c: Curves, s: Spec, x: seq<Sub>, y: seq<Sub>, n: Nodes)
    requires ValidSpec(s)
    ensures Model(c, s, x + y, n) == Model(c, s, y, Model(c, s, x, n))
  {
    hide Step, KernelOf;
    if y == [] {
      assert x + y == x;
    } else {
      var l := |y| - 1;
      ModelAppend(c, s, x, y[..l], n);
      assert (x + y)[..|x + y| - 1] == x + y[..l];
    }
  }

  /** The model's sub-steps of a block, up to any of them, are those of one step. */
  lemma {:induction false} ModelIsConst(c: Curves, s: Spec, x: seq<Sub>, p: real, h: real, ta: real, n: Nodes, i: nat)
    requires ValidSpec(s) && h > 0.0 && IsBlock(x, p, h, ta) && i <= |x|
    ensures Model(c, s, x[..i], n) == Run(Const(KernelOf(c, s, h / SubSteps(h) as real, ta), i, p), n)
  {
    hide Step, KernelOf, Charged;
    var k := KernelOf(c, s, h / SubSteps(h) as real, ta);
    if i > 0 {
      ModelIsConst(c, s, x, p, h, ta, n, i - 1);
      assert x[..i][..i - 1] == x[..i - 1];
      RunOneMore(k, i - 1, p, n);
    }
  }

  /** So the model's sub-steps of all the blocks leave it where the blocks do. */
  lemma {:induction false} ModelIsHeatAll(c: Curves, s: Spec, xs: seq<seq<Sub>>, powers: seq<real>, h: real, ta: real, n: Nodes)
    requires ValidSpec(s) && h > 0.0 && AreBlocks(xs, powers, h, ta)
    ensures Model(c, s, Flat(xs), n) == Speaker.HeatAll(c, s, n, powers, h, ta)
  {
    if xs != [] {
      hide IsBlock, Model, Run, Charged, KernelOf;
      var l := |xs| - 1;
      ModelIsHeatAll(c, s, xs[..l], powers[..l], h, ta, n);
      ModelAppend(c, s, Flat(xs[..l]), xs[l], n);
      var mid := Speaker.HeatAll(c, s, n, powers[..l], h, ta);
      ModelIsConst(c, s, xs[l], powers[l], h, ta, mid, |xs[l]|);
      assert xs[l][..|xs[l]|] == xs[l];
      BlockLength(xs[l], powers[l], h, ta);
    }
  }

  lemma BlockLength(x: seq<Sub>, p: real, h: real, ta: real)
    requires h > 0.0 && IsBlock(x, p, h, ta)
    ensures |x| == SubSteps(h) && p >= 0.0
  {
    assert Charged(x[0]);
  }

  /** No block's bound is over the highest. */
  lemma {:induction false} PeakAllCovers(c: Curves, s: Spec, n: Nodes, powers: seq<real>, h: real, ta: real, b: nat)
    requires ValidSpec(s) && h > 0.0 && b < |powers|
    ensures HeatPeak(c, s, Speaker.HeatAll(c, s, n, powers[..b], h, ta), powers[b], h, ta)
         <= Speaker.PeakAll(c, s, n, powers, h, ta)
    decreases |powers|
  {
    hide HeatNodes, HeatPeak;
    var l := |powers| - 1;
    if b < l {
      PeakAllCovers(c, s, n, powers[..l], h, ta, b);
      assert powers[..l][..b] == powers[..b];
    }
  }

  // ---- against the plant --------------------------------------------------------------------------

  /** However the energy of every sub-step of every block came, the plant's magnet never passes the model's, and
      its coil passes it by at most the excess. */
  lemma BlocksAreCovered(c: Curves, s: Spec, xs: seq<seq<Sub>>, powers: seq<real>, h: real, ta: real, t: Nodes, n: Nodes)
    requires Lawful(c) && ValidSpec(s) && h > 0.0 && AreBlocks(xs, powers, h, ta) && Below(t, n)
    ensures var plant, end := Plant(c, s, Flat(xs), t), Speaker.HeatAll(c, s, n, powers, h, ta);
      plant.magnet <= end.magnet && plant.coil <= end.coil + Excess(c, s, Flat(xs))
  {
    hide AreBlocks, Charged, Plant, Model, Excess, Speaker.HeatAll;
    FlatIsCharged(xs, powers, h, ta);
    ModelIsHeatAll(c, s, xs, powers, h, ta, n);
    RunIsCovered(c, s, Flat(xs), t, n);
  }

  /** What came before sub-step `i` of block `b`. */
  function Until(xs: seq<seq<Sub>>, b: nat, i: nat): seq<Sub>
    requires b < |xs| && i <= |xs[b]|
  {
    Flat(xs[..b]) + xs[b][..i]
  }

  /** The model there. */
  lemma ModelUntil(c: Curves, s: Spec, xs: seq<seq<Sub>>, powers: seq<real>, h: real, ta: real, n: Nodes, b: nat, i: nat)
    requires ValidSpec(s) && h > 0.0 && AreBlocks(xs, powers, h, ta) && b < |xs| && i <= |xs[b]|
    ensures Model(c, s, Until(xs, b, i), n)
         == Run(Const(KernelOf(c, s, h / SubSteps(h) as real, ta), i, powers[b]),
                Speaker.HeatAll(c, s, n, powers[..b], h, ta))
  {
    hide IsBlock, Model, Run, KernelOf, Speaker.HeatAll, Flat;
    ModelIsHeatAll(c, s, xs[..b], powers[..b], h, ta, n);
    ModelAppend(c, s, Flat(xs[..b]), xs[b][..i], n);
    ModelIsConst(c, s, xs[b], powers[b], h, ta, Speaker.HeatAll(c, s, n, powers[..b], h, ta), i);
  }

  /** A sub-step's bound is at most the highest of all the blocks'. */
  lemma SubPeakIsCovered(c: Curves, s: Spec, powers: seq<real>, h: real, ta: real, n: Nodes, b: nat, i: nat)
    requires Lawful(c) && ValidSpec(s) && h > 0.0 && b < |powers| && i < SubSteps(h) && powers[b] >= 0.0
    ensures var k := KernelOf(c, s, h / SubSteps(h) as real, ta);
      Bound(k, powers[b], Run(Const(k, i, powers[b]), Speaker.HeatAll(c, s, n, powers[..b], h, ta)))
        <= Speaker.PeakAll(c, s, n, powers, h, ta)
  {
    hide Speaker.PeakAll, Speaker.HeatAll, KernelOf, Bound, Run, Peak, Sound;
    var m, k, p := SubSteps(h), KernelOf(c, s, h / SubSteps(h) as real, ta), powers[b];
    QuotientPositive(h, m as real);
    KernelSound(c, s, h / m as real, ta);
    PeakCovers(Const(k, m, p), Speaker.HeatAll(c, s, n, powers[..b], h, ta), i);
    assert Const(k, m, p)[..i] == Const(k, i, p);
    PeakAllCovers(c, s, n, powers, h, ta, b);
  }

  /** What came before sub-step `i` of block `b` of blocks that follow `early`. */
  function Before(early: seq<Sub>, xs: seq<seq<Sub>>, b: nat, i: nat): seq<Sub>
    requires b < |xs| && i <= |xs[b]|
  {
    early + Until(xs, b, i)
  }

  /** The coil after the first `j` pieces of a sub-step, the plant having come through `before`. */
  function CoilAt(c: Curves, s: Spec, before: seq<Sub>, t: Nodes, x: Sub, j: nat): real
    requires ValidSpec(s) && j <= |x.truth|
  {
    var at := Plant(c, s, before, t);
    Coil(c, s, StepMagnet(KernelOf(c, s, x.h, x.ta), Mean(x), at), x.truth[..j], at.coil)
  }

  /** Blocks that follow any sub-steps: at every moment of theirs the coil is at most their highest bound and the
      excess by then. */
  lemma LaterPeakIsOver(c: Curves, s: Spec, early: seq<Sub>, xs: seq<seq<Sub>>, powers: seq<real>, h: real, ta: real,
                        t: Nodes, n: Nodes, b: nat, i: nat, j: nat)
    requires Lawful(c) && ValidSpec(s) && h > 0.0 && AreBlocks(xs, powers, h, ta) && Below(t, n)
    requires forall k :: 0 <= k < |early| ==> Charged(early[k])
    requires b < |xs| && i < |xs[b]| && j <= |xs[b][i].truth|
    ensures CoilAt(c, s, Before(early, xs, b, i), t, xs[b][i], j)
         <= Speaker.PeakAll(c, s, Model(c, s, early, n), powers, h, ta) + Excess(c, s, Before(early, xs, b, i))
  {
    var x, before, mid := xs[b][i], Before(early, xs, b, i), Model(c, s, early, n);
    BlockLength(xs[b], powers[b], h, ta);
    UntilIsCharged(xs, powers, h, ta, b, i);
    assert Charged(x) && x.charged == powers[b] && x.h == h / SubSteps(h) as real && x.ta == ta;
    hide AreBlocks, IsBlock, Charged, Plant, Model, Excess, Speaker.HeatAll, Speaker.PeakAll, Coil, Bound, Run, KernelOf;
    RunIsCovered(c, s, before, t, n);
    ExcessNonneg(c, s, before);
    SubIsCovered(c, s, x, Plant(c, s, before, t), Model(c, s, before, n), Excess(c, s, before), j);
    ModelAppend(c, s, early, Until(xs, b, i), n);
    ModelUntil(c, s, xs, powers, h, ta, mid, b, i);
    SubPeakIsCovered(c, s, powers, h, ta, mid, b, i);
  }

  /** At every moment of every sub-step of every block the coil is at most the period's highest bound and the
      excess by then: so a period that left no fault never took it to the limit but for that. */
  lemma PeakIsOverBlocks(c: Curves, s: Spec, xs: seq<seq<Sub>>, powers: seq<real>, h: real, ta: real, t: Nodes, n: Nodes,
                         b: nat, i: nat, j: nat)
    requires Lawful(c) && ValidSpec(s) && h > 0.0 && AreBlocks(xs, powers, h, ta) && Below(t, n)
    requires b < |xs| && i < |xs[b]| && j <= |xs[b][i].truth|
    ensures CoilAt(c, s, Until(xs, b, i), t, xs[b][i], j)
         <= Speaker.PeakAll(c, s, n, powers, h, ta) + Excess(c, s, Until(xs, b, i))
  {
    hide AreBlocks, Speaker.PeakAll, Excess, CoilAt, Until;
    LaterPeakIsOver(c, s, [], xs, powers, h, ta, t, n, b, i, j);
    assert [] + Until(xs, b, i) == Until(xs, b, i);
  }

  lemma UntilIsCharged(xs: seq<seq<Sub>>, powers: seq<real>, h: real, ta: real, b: nat, i: nat)
    requires h > 0.0 && AreBlocks(xs, powers, h, ta) && b < |xs| && i <= |xs[b]|
    ensures forall k :: 0 <= k < |Until(xs, b, i)| ==> Charged(Until(xs, b, i)[k])
  {
    hide Charged, Flat;
    FlatIsCharged(xs[..b], powers[..b], h, ta);
  }

  // ---- a measured run -------------------------------------------------------------------------------

  /** What really came in the blocks of a stretch that lasts `secs`. */
  ghost predicate InStretch(xs: seq<seq<Sub>>, heat: seq<real>, secs: real, period: nat, ta: real)
    requires heat != [] && secs > 0.0 && period > 0
  {
    var b := Placement.Blocks(|heat|, period);
    Speaker.EachAll(secs, b);
    AreBlocks(xs, Placement.Means(heat, b), Speaker.Each(secs, b), ta)
  }

  /** A run of measured frames, whole or the first of them in part, as it was really played: the energy of every
      sub-step of its blocks, spread anyhow. */
  ghost predicate InRun(xs: seq<seq<Sub>>, ys: seq<seq<Sub>>, heat: seq<real>, first: real, rate: real, period: nat, ta: real)
    requires heat != [] && 0.0 < first <= 1.0 && rate > 0.0 && period > 0
  {
    QuotientPositive(first, rate);
    QuotientPositive(|heat| as real, rate);
    if first == 1.0 then InStretch(xs, heat, Bank.FrameSecs(|heat|, rate), period, ta) && ys == []
    else
      && InStretch(xs, heat[..1], first / rate, period, ta)
      && if |heat| == 1 then ys == []
         else
           QuotientPositive((|heat| - 1) as real, rate);
           InStretch(ys, heat[1..], Bank.FrameSecs(|heat| - 1, rate), period, ta)
  }

  lemma StretchIs(c: Curves, s: Spec, xs: seq<seq<Sub>>, heat: seq<real>, secs: real, period: nat, ta: real, n: Nodes)
    requires ValidSpec(s) && heat != [] && secs > 0.0 && period > 0 && InStretch(xs, heat, secs, period, ta)
    ensures Model(c, s, Flat(xs), n) == Bank.StretchNodes(c, s, n, heat, secs, period, ta)
    ensures forall k :: 0 <= k < |Flat(xs)| ==> Charged(Flat(xs)[k])
  {
    hide AreBlocks, Model, Flat, Charged, Placement.Means, Placement.Blocks, Speaker.HeatAll;
    var b := Placement.Blocks(|heat|, period);
    Speaker.EachAll(secs, b);
    ModelIsHeatAll(c, s, xs, Placement.Means(heat, b), Speaker.Each(secs, b), ta, n);
    FlatIsCharged(xs, Placement.Means(heat, b), Speaker.Each(secs, b), ta);
  }

  /** The model's sub-steps of the whole run. */
  lemma RunIs(c: Curves, s: Spec, xs: seq<seq<Sub>>, ys: seq<seq<Sub>>, heat: seq<real>, first: real, rate: real,
              period: nat, ta: real, n: Nodes)
    requires ValidSpec(s) && heat != [] && 0.0 < first <= 1.0 && rate > 0.0 && period > 0
    requires InRun(xs, ys, heat, first, rate, period, ta)
    ensures Model(c, s, Flat(xs) + Flat(ys), n) == Bank.MeasuredNodes(c, s, n, heat, first, rate, period, ta)
    ensures forall k :: 0 <= k < |Flat(xs) + Flat(ys)| ==> Charged((Flat(xs) + Flat(ys))[k])
  {
    hide InStretch, Model, Charged, Bank.StretchNodes;
    QuotientPositive(first, rate);
    QuotientPositive(|heat| as real, rate);
    ModelAppend(c, s, Flat(xs), Flat(ys), n);
    if first == 1.0 {
      StretchIs(c, s, xs, heat, Bank.FrameSecs(|heat|, rate), period, ta, n);
      assert Flat(xs) + Flat(ys) == Flat(xs);
    } else {
      StretchIs(c, s, xs, heat[..1], first / rate, period, ta, n);
      if |heat| == 1 {
        assert Flat(xs) + Flat(ys) == Flat(xs);
      } else {
        QuotientPositive((|heat| - 1) as real, rate);
        StretchIs(c, s, ys, heat[1..], Bank.FrameSecs(|heat| - 1, rate), period, ta, Model(c, s, Flat(xs), n));
      }
    }
  }

  /** A driver stepped through measured frames: the plant's magnet never passes its, and its coil passes it by at most
      the excess. */
  lemma MeasuredIsCovered(c: Curves, s: Spec, xs: seq<seq<Sub>>, ys: seq<seq<Sub>>, heat: seq<real>, first: real, rate: real,
                          period: nat, ta: real, t: Nodes, n: Nodes)
    requires Lawful(c) && ValidSpec(s) && heat != [] && 0.0 < first <= 1.0 && rate > 0.0 && period > 0
    requires InRun(xs, ys, heat, first, rate, period, ta) && Below(t, n)
    ensures var bs := Flat(xs) + Flat(ys);
      var plant, end := Plant(c, s, bs, t), Bank.MeasuredNodes(c, s, n, heat, first, rate, period, ta);
      plant.magnet <= end.magnet && plant.coil <= end.coil + Excess(c, s, bs)
  {
    hide InRun, Charged, Plant, Model, Excess, Bank.MeasuredNodes, Flat;
    RunIs(c, s, xs, ys, heat, first, rate, period, ta, n);
    RunIsCovered(c, s, Flat(xs) + Flat(ys), t, n);
  }

  lemma StretchPeakIsOver(c: Curves, s: Spec, early: seq<Sub>, xs: seq<seq<Sub>>, heat: seq<real>, secs: real, period: nat,
                          ta: real, t: Nodes, n: Nodes, b: nat, i: nat, j: nat)
    requires Lawful(c) && ValidSpec(s) && heat != [] && secs > 0.0 && period > 0 && InStretch(xs, heat, secs, period, ta)
    requires Below(t, n) && forall k :: 0 <= k < |early| ==> Charged(early[k])
    requires b < |xs| && i < |xs[b]| && j <= |xs[b][i].truth|
    ensures CoilAt(c, s, Before(early, xs, b, i), t, xs[b][i], j)
         <= Bank.StretchPeak(c, s, Model(c, s, early, n), heat, secs, period, ta) + Excess(c, s, Before(early, xs, b, i))
  {
    hide AreBlocks, Model, Charged, Placement.Means, Placement.Blocks, Speaker.PeakAll, Excess, CoilAt, Before;
    var m := Placement.Blocks(|heat|, period);
    Speaker.EachAll(secs, m);
    LaterPeakIsOver(c, s, early, xs, Placement.Means(heat, m), Speaker.Each(secs, m), ta, t, n, b, i, j);
  }

  /** And at every moment of its first stretch the coil is at most the run's bound and the excess by then ... */
  lemma MeasuredPeakIsOver(c: Curves, s: Spec, xs: seq<seq<Sub>>, ys: seq<seq<Sub>>, heat: seq<real>, first: real, rate: real,
                           period: nat, ta: real, t: Nodes, n: Nodes, b: nat, i: nat, j: nat)
    requires Lawful(c) && ValidSpec(s) && heat != [] && 0.0 < first <= 1.0 && rate > 0.0 && period > 0
    requires InRun(xs, ys, heat, first, rate, period, ta) && Below(t, n)
    requires b < |xs| && i < |xs[b]| && j <= |xs[b][i].truth|
    ensures CoilAt(c, s, Before([], xs, b, i), t, xs[b][i], j)
         <= Bank.MeasuredPeak(c, s, n, heat, first, rate, period, ta) + Excess(c, s, Before([], xs, b, i))
  {
    hide InStretch, Bank.StretchPeak, Bank.StretchNodes, Excess, CoilAt, Before;
    QuotientPositive(first, rate);
    QuotientPositive(|heat| as real, rate);
    if first == 1.0 {
      StretchPeakIsOver(c, s, [], xs, heat, Bank.FrameSecs(|heat|, rate), period, ta, t, n, b, i, j);
    } else {
      StretchPeakIsOver(c, s, [], xs, heat[..1], first / rate, period, ta, t, n, b, i, j);
    }
  }

  /** ... and of the frames after a first one that counts in part. */
  lemma RestPeakIsOver(c: Curves, s: Spec, xs: seq<seq<Sub>>, ys: seq<seq<Sub>>, heat: seq<real>, first: real, rate: real,
                       period: nat, ta: real, t: Nodes, n: Nodes, b: nat, i: nat, j: nat)
    requires Lawful(c) && ValidSpec(s) && heat != [] && 0.0 < first <= 1.0 && rate > 0.0 && period > 0
    requires InRun(xs, ys, heat, first, rate, period, ta) && Below(t, n)
    requires b < |ys| && i < |ys[b]| && j <= |ys[b][i].truth|
    ensures CoilAt(c, s, Before(Flat(xs), ys, b, i), t, ys[b][i], j)
         <= Bank.MeasuredPeak(c, s, n, heat, first, rate, period, ta) + Excess(c, s, Before(Flat(xs), ys, b, i))
  {
    hide InStretch, Bank.StretchPeak, Bank.StretchNodes, Excess, CoilAt, Before, Model, Flat, Charged;
    QuotientPositive(first, rate);
    QuotientPositive(|heat| as real, rate);
    assert first != 1.0 && |heat| > 1;
    QuotientPositive((|heat| - 1) as real, rate);
    StretchIs(c, s, xs, heat[..1], first / rate, period, ta, n);
    StretchPeakIsOver(c, s, Flat(xs), ys, heat[1..], Bank.FrameSecs(|heat| - 1, rate), period, ta, t, n, b, i, j);
  }
}
