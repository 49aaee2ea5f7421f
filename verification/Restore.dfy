/** The model across restarts (src/state.rs, `restore`): a clean stop's state continued and the
    time since charged, or every speaker at its limit, latched. */
module Restore {
  import opened Config
  import opened Curves
  import opened Reals
  import opened Thermal
  import opened Inversion
  import opened Budget
  import opened Speaker
  import Latch
  import opened Options
  import Placement
  import Signals
  import SpreadEnergy
  import Domination

  datatype SavedSpeaker = SavedSpeaker(name: string, tCoil: real, tMagnet: real, mean1s: real, mean60s: real,
                                       reductionDb: real, hard: bool, tPeak: real)

  datatype Saved = Saved(boottime: real, covered: real, released: bool, speakers: seq<SavedSpeaker>)

  /** Written by a clean stop, its model covering every moment up to the write. */
  predicate Proven(saved: Saved) {
    saved.released && saved.covered == saved.boottime
  }

  /** The first entry of that name, or -1. */
  function Named(xs: seq<SavedSpeaker>, name: string, from: nat): (i: int)
    requires from <= |xs|
    ensures i == -1 || from <= i < |xs|
    ensures i >= 0 ==> xs[i].name == name && forall k :: from <= k < i ==> xs[k].name != name
    ensures i == -1 ==> forall k :: from <= k < |xs| ==> xs[k].name != name
    decreases |xs| - from
  {
    if from == |xs| then -1 else if xs[from].name == name then from else Named(xs, name, from + 1)
  }

  const HOUR := 3600.0

  /** A driver in the gap: its nodes, whether there is a fault, the bound of its last step, its budgets. */
  datatype Point = Point(nodes: Nodes, hard: bool, peak: real, history: seq<Entry>)

  function Second(c: Curves, s: Spec, x: Point, watts: real, dt: real, ta: real): Point
    requires ValidSpec(s) && dt > 0.0
  {
    var peak := HeatPeak(c, s, x.nodes, watts, dt, ta);
    Point(HeatNodes(c, s, x.nodes, watts, dt, ta), x.hard || peak >= s.tLimit, peak,
          Record(x.history, Entry(dt, FullScale(s)), FullScale(s)))
  }

  /** The gap's steps of at most a second, full scale before the gain. */
  function Gap(c: Curves, s: Spec, x: Point, watts: real, left: real, ta: real): Point
    requires ValidSpec(s)
    decreases Placement.Ceil(Max(left, 0.0))
  {
    if left <= 0.0 then x
    else Gap(c, s, Second(c, s, x, watts, Min(left, 1.0), ta), watts, left - Min(left, 1.0), ta)
  }

  /** Where a driver is. */
  ghost function Here(s: SpeakerState): Point
    requires s.tPeak.Peak?
    reads s
  {
    Point(s.nodes, s.hard, s.tPeak.t, s.history)
  }

  function Settled(s: Spec, watts: real, ta: real): Nodes {
    var magnet := ta + watts * s.trMagnet;
    Nodes(magnet + watts * s.trCoil, magnet)
  }

  lemma SteadyStep(k: Kernel, s: Spec, watts: real)
    requires k.trCoil == s.trCoil && k.trMagnet == s.trMagnet
    ensures Step(k, watts, Settled(s, watts, k.ta)) == Settled(s, watts, k.ta)
  {
    var n := Settled(s, watts, k.ta);
    SteadyLag(n.magnet, k.kMagnet);
    SteadyLag(n.coil, k.kCoil);
    assert k.ta + watts * k.trMagnet == n.magnet && n.magnet + watts * k.trCoil == n.coil;
  }

  lemma SteadyLag(x: real, k: real)
    ensures Lag(x, x, k) == x
  {}

  /** Where any number of sub-steps at that power leaves it. */
  lemma {:induction false} SettledIsSteady(k: Kernel, s: Spec, m: nat, watts: real)
    requires k.trCoil == s.trCoil && k.trMagnet == s.trMagnet
    ensures Run(Const(k, m, watts), Settled(s, watts, k.ta)) == Settled(s, watts, k.ta)
  {
    hide Step, Settled, Bound;
    if m > 0 {
      SettledIsSteady(k, s, m - 1, watts);
      RunOneMore(k, m - 1, watts, Settled(s, watts, k.ta));
      SteadyStep(k, s, watts);
    }
  }

  /** An hour of the safe level, or any time of it, is no different for a driver that is there. */
  lemma SettledStays(c: Curves, s: Spec, watts: real, dt: real, ta: real)
    requires ValidSpec(s) && dt > 0.0
    ensures HeatNodes(c, s, Settled(s, watts, ta), watts, dt, ta) == Settled(s, watts, ta)
  {
    SettledIsSteady(KernelOf(c, s, dt / SubSteps(dt) as real, ta), s, SubSteps(dt), watts);
  }

  /** Latched: the state an unknown past leaves. */
  ghost predicate LatchedNow(s: SpeakerState, ta: real)
    requires ValidSpec(s.spec)
    reads s
  {
    && s.hard && s.heated == 0.0
    && s.nodes == Latch.Latched(s.c, s.spec, FullScale(s.spec), ta)
    && s.history == [Entry(MINUTE, FullScale(s.spec))]
  }

  /** Continued from what was saved, `elapsed` seconds on. */
  ghost predicate Continued(s: SpeakerState, x: SavedSpeaker, elapsed: real, g: Globals)
    requires ValidSpec(s.spec)
    reads s
  {
    var full, p := FullScale(s.spec), WorstCase(s.c, s.spec, g.safeReduction);
    var n := Nodes(x.tCoil, x.tMagnet);
    && s.tPeak.Peak? && s.reductionDb == Max(x.reductionDb, 0.0)
    && (elapsed > HOUR ==>
          && s.hard == x.hard && s.tPeak.t == s.nodes.coil
          && s.nodes == Settled(s.spec, p, g.tAmbient)
          && s.history == [Entry(MINUTE, full)])
    && (elapsed <= HOUR ==>
          && s.heated == elapsed && full > 0.0
          && Here(s) == Gap(s.c, s.spec, Point(n, x.hard, Max(x.tPeak, x.tCoil), Rebuilt(x.mean1s, x.mean60s, full)), p,
                            elapsed, g.tAmbient))
  }

  /** What a speaker is after a restore. */
  ghost predicate Restored(s: SpeakerState, saved: Saved, now: real, g: Globals)
    requires ValidSpec(s.spec)
    reads s
  {
    var i := Named(saved.speakers, s.spec.name, 0);
    if i < 0 || !Proven(saved) then LatchedNow(s, g.tAmbient)
    else Continued(s, saved.speakers[i], Max(now - saved.boottime, 0.0), g)
  }

  // ---- more than an hour ------------------------------------------------------------------------------

  /** A sub-step leaves the magnet on the side of its steady state where it was. */
  lemma SideKept(k: Kernel, p: real, n: Nodes)
    requires 0.0 < k.kMagnet < 1.0
    ensures var m := k.ta + p * k.trMagnet; StepMagnet(k, p, n) <= m <==> n.magnet <= m
  {
    var d, a := n.magnet - (k.ta + p * k.trMagnet), 1.0 - k.kMagnet;
    LagDifference(k.ta + p * k.trMagnet, n.magnet, k.ta + p * k.trMagnet, k.ta + p * k.trMagnet, k.kMagnet);
    if d > 0.0 { Positive(a, d); } else { Nonneg(a, -d); }
    SideTerms(k, p, n, d, a);
  }

  lemma SideTerms(k: Kernel, p: real, n: Nodes, d: real, a: real)
    requires d == n.magnet - (k.ta + p * k.trMagnet) && a == 1.0 - k.kMagnet
    ensures StepMagnet(k, p, n) - (k.ta + p * k.trMagnet) == a * d
  {}

  lemma {:induction false} RunKeepsSide(k: Kernel, m: nat, p: real, n: Nodes)
    requires 0.0 < k.kMagnet < 1.0
    ensures var steady := k.ta + p * k.trMagnet; Run(Const(k, m, p), n).magnet <= steady <==> n.magnet <= steady
  {
    hide Step, Bound, StepMagnet;
    if m > 0 {
      RunKeepsSide(k, m - 1, p, n);
      RunOneMore(k, m - 1, p, n);
      var before := Run(Const(k, m - 1, p), n);
      SideKept(k, p, before);
      StepIsMagnet(k, p, before);
    }
  }

  lemma StepIsMagnet(k: Kernel, p: real, n: Nodes)
    ensures Step(k, p, n).magnet == StepMagnet(k, p, n)
  {}

  /** The steady state set after more than an hour is no cooler than the gap's own steps leave the magnet exactly if
      the saved magnet was no hotter than it: however long the gap, a hotter one never quite gets there. */
  lemma {:induction false} HourCoversIff(c: Curves, s: Spec, x: Point, watts: real, left: real, ta: real)
    requires Lawful(c) && ValidSpec(s)
    ensures Gap(c, s, x, watts, left, ta).nodes.magnet <= Settled(s, watts, ta).magnet
       <==> x.nodes.magnet <= Settled(s, watts, ta).magnet
    decreases Placement.Ceil(Max(left, 0.0))
  {
    hide Record, HeatPeak, HeatNodes, Settled;
    if left > 0.0 {
      var dt := Min(left, 1.0);
      SecondKeepsSide(c, s, x.nodes, watts, dt, ta);
      HourCoversIff(c, s, Second(c, s, x, watts, dt, ta), watts, left - dt, ta);
    }
  }

  lemma SecondKeepsSide(c: Curves, s: Spec, n: Nodes, watts: real, dt: real, ta: real)
    requires Lawful(c) && ValidSpec(s) && dt > 0.0
    ensures HeatNodes(c, s, n, watts, dt, ta).magnet <= Settled(s, watts, ta).magnet <==> n.magnet <= Settled(s, watts, ta).magnet
  {
    hide Run, KernelOf;
    QuotientPositive(dt, SubSteps(dt) as real);
    MagnetLags(c, s, dt / SubSteps(dt) as real, ta);
    RunKeepsSide(KernelOf(c, s, dt / SubSteps(dt) as real, ta), SubSteps(dt), watts, n);
  }

  lemma MagnetLags(c: Curves, s: Spec, h: real, ta: real)
    requires Lawful(c) && ValidSpec(s) && h > 0.0
    ensures var k := KernelOf(c, s, h, ta); 0.0 < k.kMagnet < 1.0 && k.ta == ta && k.trMagnet == s.trMagnet
  {
    KernelSound(c, s, h, ta);
  }

  // ---- what the budgets hold after it --------------------------------------------------------------

  lemma FullEnds(full: real, a: real, b: real)
    requires full > 0.0
    ensures Times(full, a + b) == Times(full, a) + Times(full, b) && Times(full, 0.0) == 0.0
  {}

  lemma SecondHolds(h: seq<Entry>, dt: real, full: real, w: real)
    requires Proper(h) && dt > 0.0 && full > 0.0 && w <= MINUTE
    ensures Energy(Record(h, Entry(dt, full), full), w, full)
         == Times(full, Min(Max(w, 0.0), dt)) + Energy(h, w - dt, full)
  {
    hide Record, Part;
    RecordedEnergy(h, Entry(dt, full), w, full);
    FullEnds(full, 0.0, 0.0);
    if 0.0 < w < dt { FullPart(dt, w, full); }
  }

  /** Of the gap as much of full scale as lies in the window, and before it what the history held. */
  lemma {:induction false} GapHolds(c: Curves, s: Spec, x: Point, watts: real, left: real, ta: real, w: real)
    requires ValidSpec(s) && FullScale(s) > 0.0 && Proper(x.history) && left >= 0.0 && w <= MINUTE
    ensures var g, full := Gap(c, s, x, watts, left, ta).history, FullScale(s);
      Proper(g) && Energy(g, w, full) == Times(full, Min(Max(w, 0.0), left)) + Energy(x.history, w - left, full)
    decreases Placement.Ceil(left)
  {
    hide Record, HeatNodes, HeatPeak, Energy;
    var full := FullScale(s);
    FullEnds(full, 0.0, 0.0);
    if left > 0.0 {
      var dt := Min(left, 1.0);
      var y := Second(c, s, x, watts, dt, ta);
      RecordKeeps(x.history, Entry(dt, full), full);
      GapHolds(c, s, y, watts, left - dt, ta, w);
      SecondHolds(x.history, dt, full, w - (left - dt));
      FullEnds(full, Min(Max(w, 0.0), left - dt), Min(Max(w - (left - dt), 0.0), dt));
      assert w - (left - dt) - dt == w - left;
    }
  }

  /** Whatever followed the past that the history covered: the gap covers that too. */
  lemma GapCovers(c: Curves, s: Spec, x: Point, watts: real, left: real, ta: real, past: seq<Entry>, ps: seq<Entry>, w: real)
    requires ValidSpec(s) && FullScale(s) > 0.0 && Proper(x.history) && left >= 0.0 && 0.0 <= w <= MINUTE
    requires Proper(past) && Proper(ps) && Within(ps, FullScale(s)) && Total(ps) == left
    requires forall v :: 0.0 <= v <= MINUTE ==> Signals.Truth(past, v) <= Energy(x.history, v, FullScale(s))
    ensures Signals.Truth(past + ps, w) <= Energy(Gap(c, s, x, watts, left, ta).history, w, FullScale(s))
  {
    hide Gap, Energy, Signals.Truth;
    var full := FullScale(s);
    GapHolds(c, s, x, watts, left, ta, w);
    Signals.TruthAppend(past, ps, w);
    if w >= left {
      Signals.SumWithin(ps, full);
    } else {
      Signals.TruthAtMost(ps, w, full);
      NothingBefore(x.history, w - left, full);
    }
  }

  lemma NothingBefore(h: seq<Entry>, w: real, full: real)
    requires w <= 0.0
    ensures Energy(h, w, full) == 0.0
  {}

  /** A minute of full scale covers everything within full scale. */
  lemma FullMinuteCovers(all: seq<Entry>, full: real, w: real)
    requires Proper(all) && Within(all, full) && full > 0.0 && 0.0 <= w <= MINUTE
    ensures Signals.Truth(all, w) <= Energy([Entry(MINUTE, full)], w, full)
  {
    Signals.TruthAtMost(all, w, full);
    var h := [Entry(MINUTE, full)];
    assert h[..0] == [];
    if w < MINUTE { FullPart(MINUTE, w, full); }
  }

  /** What the file says of the budgets is a live history's two means. */
  predicate SaysOf(x: SavedSpeaker, live: seq<Entry>, full: real) {
    x.mean1s == Energy(live, 1.0, full) / 1.0 && x.mean60s == Energy(live, MINUTE, full) / MINUTE
  }

  /** A driver continued from a file that says what the live budgets held holds, in every window of up to a
      minute, at least the energy before the gain of everything that was played: before the stop, if the live
      ones held it, and in any way since. */
  lemma ContinuedCovers(s: SpeakerState, x: SavedSpeaker, elapsed: real, g: Globals, live: seq<Entry>, past: seq<Entry>,
                        ps: seq<Entry>, w: real)
    requires Lawful(s.c) && ValidSpec(s.spec) && elapsed >= 0.0 && Continued(s, x, elapsed, g)
    requires Proper(live) && Within(live, FullScale(s.spec)) && SaysOf(x, live, FullScale(s.spec))
    requires Proper(past) && Within(past, FullScale(s.spec))
    requires Proper(ps) && Within(ps, FullScale(s.spec)) && Total(ps) == elapsed && 0.0 <= w <= MINUTE
    requires forall v :: 0.0 <= v <= MINUTE ==> Signals.Truth(past, v) <= Energy(live, v, FullScale(s.spec))
    ensures Signals.Truth(past + ps, w) <= Energy(s.history, w, FullScale(s.spec))
  {
    hide Gap, Signals.Truth, Energy, Rebuilt, Lawful, WorstCase, FullScale;
    var full := FullScale(s.spec);
    WorstCaseFull(s.c, s.spec);
    if elapsed > HOUR {
      FullMinuteCovers(past + ps, full, w);
    } else {
      RebuiltCovers(live, [], full);
      assert Budget.Covers(Rebuilt(x.mean1s, x.mean60s, full), live, full);
      RebuiltIsProper(live, full);
      GapCovers(s.c, s.spec, Point(Nodes(x.tCoil, x.tMagnet), x.hard, Max(x.tPeak, x.tCoil),
                                   Rebuilt(x.mean1s, x.mean60s, full)),
                WorstCase(s.c, s.spec, g.safeReduction), elapsed, g.tAmbient, past, ps, w);
    }
  }

  lemma RebuiltIsProper(live: seq<Entry>, full: real)
    requires Proper(live) && Within(live, full) && full > 0.0
    ensures Proper(Rebuilt(Energy(live, 1.0, full) / 1.0, Energy(live, MINUTE, full) / MINUTE, full))
  {
    EnergyGrows(live, 0.0, 1.0, full);
    EnergyGrows(live, 1.0, MINUTE, full);
    RebuiltIs(Energy(live, 1.0, full), Energy(live, MINUTE, full), full);
    ResumeCovers(live, full);
  }

  // ---- and what the coil is after it ----------------------------------------------------------------

  /** What a coil the card held at its safe level really got in the gap: cut where the gap's sub-steps are and as
      finely as may be in between, no piece of it over `p`. */
  ghost predicate QuietGap(xs: seq<seq<SpreadEnergy.Sub>>, p: real, left: real, ta: real)
    decreases Placement.Ceil(Max(left, 0.0))
  {
    if left <= 0.0 then xs == []
    else
      var dt := Min(left, 1.0);
      && xs != [] && |xs[0]| == SubSteps(dt)
      && (forall i :: 0 <= i < |xs[0]| ==> Domination.Quieter(xs[0][i], dt / SubSteps(dt) as real, ta, p))
      && QuietGap(xs[1..], p, left - dt, ta)
  }

  function PlantAfter(c: Curves, s: Spec, xs: seq<seq<SpreadEnergy.Sub>>, t: Nodes): Nodes
    requires ValidSpec(s)
  {
    if xs == [] then t else PlantAfter(c, s, xs[1..], SpreadEnergy.Plant(c, s, xs[0], t))
  }

  /** A driver saved no cooler than it was is continued no cooler than it is. */
  lemma {:induction false} GapStaysOver(c: Curves, s: Spec, x: Point, watts: real, left: real, ta: real,
                                        xs: seq<seq<SpreadEnergy.Sub>>, t: Nodes)
    requires Lawful(c) && ValidSpec(s) && watts > 0.0 && QuietGap(xs, watts, left, ta) && Below(t, x.nodes)
    ensures Below(PlantAfter(c, s, xs, t), Gap(c, s, x, watts, left, ta).nodes)
    decreases Placement.Ceil(Max(left, 0.0))
  {
    hide Record, HeatPeak, Domination.Quieter, SpreadEnergy.Plant, Run, KernelOf;
    if left > 0.0 {
      var dt := Min(left, 1.0);
      QuotientPositive(dt, SubSteps(dt) as real);
      Domination.RunStaysBelow(c, s, xs[0], dt / SubSteps(dt) as real, ta, watts, t, x.nodes);
      GapStaysOver(c, s, Second(c, s, x, watts, dt, ta), watts, left - dt, ta, xs[1..],
                   SpreadEnergy.Plant(c, s, xs[0], t));
    }
  }

  /** The time since the stop, at the safe level for the heat and at full scale for the budgets. */
  method ChargeGap(s: SpeakerState, watts: real, elapsed: real, ta: real)
    requires s.Valid() && s.heated == 0.0 && s.tPeak.Peak?
    modifies s
    ensures s.Valid() && s.reductionDb == old(s.reductionDb)
    ensures s.tPeak.Peak? && Here(s) == Gap(s.c, s.spec, old(Here(s)), watts, elapsed, ta)
    ensures s.heated == Max(elapsed, 0.0)
  {
    var left := elapsed;
    WorstCaseFull(s.c, s.spec);
    while left > 0.0
      invariant s.Valid() && s.reductionDb == old(s.reductionDb) && s.tPeak.Peak?
      invariant Gap(s.c, s.spec, Here(s), watts, left, ta) == Gap(s.c, s.spec, old(Here(s)), watts, elapsed, ta)
      invariant s.heated + Max(left, 0.0) == Max(elapsed, 0.0)
      decreases Placement.Ceil(Max(left, 0.0))
    {
      var dt := Min(left, 1.0);
      ChargeSecond(s, watts, dt, ta);
      left := left - dt;
    }
  }

  method ChargeSecond(s: SpeakerState, watts: real, dt: real, ta: real)
    requires s.Valid() && s.tPeak.Peak? && dt > 0.0
    modifies s
    ensures s.Valid() && s.reductionDb == old(s.reductionDb) && s.heated == old(s.heated) + dt
    ensures s.tPeak.Peak? && Here(s) == Second(s.c, s.spec, old(Here(s)), watts, dt, ta)
  {
    hide Record, HeatNodes, HeatPeak;
    WorstCaseFull(s.c, s.spec);
    s.StepPre(watts, WorstCase(s.c, s.spec, 0.0), dt, ta);
  }

  method Continue(s: SpeakerState, x: SavedSpeaker, elapsed: real, g: Globals)
    requires s.Valid() && elapsed >= 0.0
    modifies s
    ensures s.Valid() && Continued(s, x, elapsed, g)
  {
    s.Resume(x.tCoil, x.tMagnet, x.mean1s, x.mean60s);
    s.ResumeGovernor(Some(x.hard), x.tPeak, x.reductionDb);
    var p := WorstCase(s.c, s.spec, g.safeReduction);
    if elapsed > HOUR {
      Settle(s, p, g.tAmbient);
    } else {
      ChargeGap(s, p, elapsed, g.tAmbient);
    }
  }

  /** An hour at the safe level is its steady state for any real speaker. */
  method Settle(s: SpeakerState, watts: real, ta: real)
    requires s.Valid()
    modifies s
    ensures s.Valid() && s.reductionDb == old(s.reductionDb) && s.hard == old(s.hard)
    ensures s.nodes == Settled(s.spec, watts, ta) && s.tPeak == Peak(s.nodes.coil)
    ensures s.history == [Entry(MINUTE, FullScale(s.spec))]
  {
    WorstCaseFull(s.c, s.spec);
    s.SettleAt(watts, WorstCase(s.c, s.spec, 0.0), ta);
  }

  method RestoreOne(s: SpeakerState, saved: Saved, now: real, g: Globals)
    requires s.Valid()
    modifies s
    ensures s.Valid() && Restored(s, saved, now, g)
  {
    var i := Named(saved.speakers, s.spec.name, 0);
    if i < 0 || !Proven(saved) {
      s.AssumeLatched(g.tAmbient);
    } else {
      Continue(s, saved.speakers[i], Max(now - saved.boottime, 0.0), g);
    }
  }

  /** Continue every speaker the state names from a clean stop's state; latch every other, and all
      of them if it is not one. */
  method RestoreAll(speakers: seq<SpeakerState>, saved: Saved, now: real, g: Globals) returns (proven: bool)
    requires forall i :: 0 <= i < |speakers| ==> speakers[i].Valid()
    requires forall i, j :: 0 <= i < j < |speakers| ==> speakers[i] != speakers[j]
    modifies set s | s in speakers
    ensures proven <==> Proven(saved)
    ensures forall i :: 0 <= i < |speakers| ==> speakers[i].Valid() && Restored(speakers[i], saved, now, g)
  {
    proven := Proven(saved);
    for i := 0 to |speakers|
      invariant forall j :: 0 <= j < |speakers| ==> speakers[j].Valid()
      invariant forall j :: 0 <= j < i ==> Restored(speakers[j], saved, now, g)
    {
      RestoreOne(speakers[i], saved, now, g);
    }
  }
}
