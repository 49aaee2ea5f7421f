/** One driver's protection state (src/model.rs, `SpeakerState`): the thermal nodes, the bound of
    the last step, the latched fault, the governor and the budgets' history, changed in place. */
module Speaker {
  import opened Config
  import opened Curves
  import opened Reals
  import opened Thermal
  import opened Inversion
  import opened Budget
  import Latch
  import opened Options
  import Placement

  /** The bound over the last step; none before its first sub-step. */
  datatype Bounded = NoPeak | Peak(t: real)

  /** The most power the coil can take at a reduction of `db`: a full-scale square wave. */
  function WorstCase(c: Curves, s: Spec, db: real): real
    requires s.zNominal > 0.0
  {
    Power(s, Volts(c, s, db))
  }

  function Volts(c: Curves, s: Spec, db: real): real {
    s.vsScale * c.gain(Max(db, 0.0))
  }

  lemma Square(v: real) returns (w: real)
    requires v > 0.0
    ensures w == v * v && w > 0.0
  {
    w := v * v;
    assert w / v == v;
    DivideOrder(w, 0.0, v);
  }

  lemma SquareOver(v: real, z: real)
    requires v > 0.0 && z > 0.0
    ensures v * v / z > 0.0
  {
    var w := Square(v);
    QuotientPositive(w, z);
  }

  lemma WorstCaseFull(c: Curves, s: Spec)
    requires Lawful(c) && ValidSpec(s)
    ensures WorstCase(c, s, 0.0) == FullScale(s) > 0.0
  {
    GainZero(c);
    SquareOver(s.vsScale, s.zNominal);
    assert Volts(c, s, 0.0) == s.vsScale;
  }

  lemma Scaled(v: real, g: real, h: real) returns (x: real, y: real)
    requires v >= 0.0 && 0.0 <= g <= h <= 1.0
    ensures x == v * g && y == v * h && 0.0 <= x <= y <= v
  {
    x, y := v * g, v * h;
    Nonneg(v, g);
    ScaleOrder(v, g, h);
    ScaleOrder(v, h, 1.0);
  }

  lemma VoltsFall(c: Curves, s: Spec, x: real, y: real)
    requires Lawful(c) && ValidSpec(s) && x <= y
    ensures 0.0 <= Volts(c, s, y) <= Volts(c, s, x) <= s.vsScale
  {
    var a, b := Max(x, 0.0), Max(y, 0.0);
    GainAntitone(c, a, b);
    GainAntitone(c, 0.0, a);
    GainPositive(c, b);
    GainZero(c);
    var lo, hi := Scaled(s.vsScale, c.gain(b), c.gain(a));
  }

  /** More reduction never lets more power through. */
  lemma WorstCaseFalls(c: Curves, s: Spec, x: real, y: real)
    requires Lawful(c) && ValidSpec(s) && x <= y
    ensures 0.0 <= WorstCase(c, s, y) <= WorstCase(c, s, x) <= FullScale(s)
  {
    VoltsFall(c, s, x, y);
    PowersOrdered(s, Volts(c, s, y), Volts(c, s, x));
  }

  lemma WorstIsPositive(c: Curves, s: Spec, db: real)
    requires Lawful(c) && ValidSpec(s)
    ensures WorstCase(c, s, db) > 0.0
  {
    GainPositive(c, Max(db, 0.0));
    var v := Volts(c, s, db);
    Positive(s.vsScale, c.gain(Max(db, 0.0)));
    SquareOver(v, s.zNominal);
  }

  lemma PowersOrdered(s: Spec, lo: real, hi: real)
    requires s.zNominal > 0.0 && 0.0 <= lo <= hi <= s.vsScale
    ensures 0.0 <= Power(s, lo) <= Power(s, hi) <= FullScale(s)
  {
    PowerOrder(s, 0.0, lo);
    PowerOrder(s, lo, hi);
    PowerOrder(s, hi, s.vsScale);
    assert Power(s, 0.0) == 0.0;
  }

  /** The bound if `power` reached the coil for `secs` from `n` on. */
  function PeakIf(c: Curves, s: Spec, n: Nodes, power: real, secs: real, ta: real): real
    requires ValidSpec(s)
  {
    if secs > 0.0 then Max(HeatPeak(c, s, n, power, secs, ta), n.coil) else n.coil
  }

  // ---- the governor's arithmetic ----------------------------------------------------------------

  /** What the coil's window asks for. */
  function ThermalDb(s: Spec, g: Globals, reducing: bool, t: real): real
    requires g.tWindow > 0.0
  {
    var start := s.tLimit - s.tHeadroom - g.tWindow;
    if reducing then Max((t - start) / g.tWindow * g.tReductionMax, 0.0) else 0.0
  }

  /** What one budget asks for: 10 log10(mean / limit). */
  function BudgetDb(c: Curves, mean: real, limit: real): real {
    if limit > 0.0 && mean > limit then c.room(limit / mean) / 2.0 else 0.0
  }

  /** The reduction brings the mean power to the limit, and any further one keeps it there. */
  lemma BudgetHolds(c: Curves, mean: real, limit: real, db: real)
    requires Lawful(c) && limit > 0.0 && db >= BudgetDb(c, mean, limit) && db >= 0.0
    ensures mean * (c.gain(db) * c.gain(db)) <= limit
    ensures mean > limit && db == BudgetDb(c, mean, limit) ==> mean * (c.gain(db) * c.gain(db)) == limit
  {
    GainPositive(c, db);
    GainAdd(c, db, db);
    if mean > limit {
      var r := c.room(limit / mean);
      DivideTimes(limit, mean);
      if limit / mean <= 0.0 { ScaleOrder(mean, limit / mean, 0.0); }
      RoomInverse(c, limit / mean);
      GainAntitone(c, r, db + db);
      ScaleOrder(mean, c.gain(db + db), limit / mean);
      assert db == BudgetDb(c, mean, limit) ==> db + db == r;
    } else {
      GainZero(c);
      GainAntitone(c, 0.0, db + db);
      GainPositive(c, db + db);
      ScaleOrder(c.gain(db + db), mean, limit);
      ScaleOrder(limit, c.gain(db + db), 1.0);
    }
  }

  lemma SquareFalls(mean: real, limit: real, low: real, high: real)
    requires 0.0 < high <= low && limit > 0.0 && mean * (low * low) <= limit
    ensures mean * (high * high) <= limit
  {
    ScaleOrder(high, high, low);
    ScaleOrder(low, high, low);
    Nonneg(high, high);
    if mean >= 0.0 { ScaleOrder(mean, high * high, low * low); } else { Nonneg(-mean, high * high); }
  }

  lemma BudgetDbNonneg(c: Curves, mean: real, limit: real)
    requires Lawful(c)
    ensures BudgetDb(c, mean, limit) >= 0.0
  {
    if limit > 0.0 && mean > limit {
      QuotientPositive(limit, mean);
      DivideOrder(limit, 1.0, mean);
      RoomInverse(c, limit / mean);
      GainZero(c);
      GainOrder(c, c.room(limit / mean), 0.0);
    }
  }

  /** At the working ceiling the window asks for its whole reduction. */
  lemma ThermalAtCeiling(s: Spec, g: Globals, t: real)
    requires ValidGlobals(g) && t >= s.tLimit - s.tHeadroom
    ensures ThermalDb(s, g, true, t) >= g.tReductionMax
    ensures t == s.tLimit - s.tHeadroom ==> ThermalDb(s, g, true, t) == g.tReductionMax
  {
    SelfQuotient(g.tWindow);
    var x := t - (s.tLimit - s.tHeadroom - g.tWindow);
    DivideOrder(g.tWindow, x / g.tWindow, g.tWindow);
    DivideTimes(x, g.tWindow);
    QuotientOver(1.0, x, g.tWindow);
    ScaleOrder(g.tReductionMax, 1.0, x / g.tWindow);
  }

  // ---- runs of blocks ------------------------------------------------------------------------------

  /** The nodes after blocks of `h` seconds each. */
  function HeatAll(c: Curves, s: Spec, n: Nodes, powers: seq<real>, h: real, ta: real): Nodes
    requires ValidSpec(s) && h > 0.0
  {
    if powers == [] then n
    else HeatNodes(c, s, HeatAll(c, s, n, powers[..|powers| - 1], h, ta), powers[|powers| - 1], h, ta)
  }

  function PeakAll(c: Curves, s: Spec, n: Nodes, powers: seq<real>, h: real, ta: real): real
    requires ValidSpec(s) && h > 0.0 && powers != []
  {
    var front, p := powers[..|powers| - 1], powers[|powers| - 1];
    var peak := HeatPeak(c, s, HeatAll(c, s, n, front, h, ta), p, h, ta);
    if front == [] then peak else Max(PeakAll(c, s, n, front, h, ta), peak)
  }

  /** One block is one step, and a run goes on from where an earlier one ends. */
  lemma {:induction false} HeatAllRuns(c: Curves, s: Spec, n: Nodes, x: seq<real>, y: seq<real>, p: real, h: real, ta: real)
    requires ValidSpec(s) && h > 0.0
    ensures HeatAll(c, s, n, [p], h, ta) == HeatNodes(c, s, n, p, h, ta)
    ensures HeatAll(c, s, n, x + y, h, ta) == HeatAll(c, s, HeatAll(c, s, n, x, h, ta), y, h, ta)
  {
    hide HeatNodes;
    assert [p][..0] == [];
    if y == [] {
      assert x + y == x;
    } else {
      var l := |y| - 1;
      HeatAllRuns(c, s, n, x, y[..l], p, h, ta);
      assert (x + y)[..|x + y| - 1] == x + y[..l];
    }
  }

  /** And so do the bounds: of one block its own, of both runs the higher. */
  lemma {:induction false} PeakAllRuns(c: Curves, s: Spec, n: Nodes, x: seq<real>, y: seq<real>, p: real, h: real, ta: real)
    requires ValidSpec(s) && h > 0.0
    ensures PeakAll(c, s, n, [p], h, ta) == HeatPeak(c, s, n, p, h, ta)
    ensures x != [] && y != [] ==>
      PeakAll(c, s, n, x + y, h, ta)
        == Max(PeakAll(c, s, n, x, h, ta), PeakAll(c, s, HeatAll(c, s, n, x, h, ta), y, h, ta))
  {
    hide HeatNodes, HeatPeak;
    assert [p][..0] == [];
    if x != [] && y != [] {
      var l := |y| - 1;
      PeakAllRuns(c, s, n, x, y[..l], p, h, ta);
      HeatAllRuns(c, s, n, x, y[..l], p, h, ta);
      assert (x + y)[..|x + y| - 1] == x + y[..l];
      assert y[..l] == [] ==> x + y[..l] == x;
    }
  }

  /** The power before a gain of `db`. */
  function BeforeGain(c: Curves, watts: real, db: real): real {
    watts * (c.gain(-Max(db, 0.0)) * c.gain(-Max(db, 0.0)))
  }

  lemma BeforeGainNonneg(c: Curves, watts: real, db: real)
    requires Lawful(c) && watts >= 0.0
    ensures BeforeGain(c, watts, db) >= 0.0
  {
    var g := c.gain(-Max(db, 0.0));
    GainPositive(c, -Max(db, 0.0));
    Nonneg(g, g);
    Nonneg(watts, g * g);
  }

  lemma GainUndone(c: Curves, x: real)
    requires Lawful(c)
    ensures c.gain(x) * c.gain(-x) == 1.0
  {
    GainAdd(c, x, -x);
    assert x + -x == 0.0;
    GainZero(c);
  }

  lemma UndoneTerms(v: real, g: real, u: real, z: real)
    requires g * u == 1.0 && z > 0.0
    ensures v * g * (v * g) / z * (u * u) == v * v / z
  {
    var i := 1.0 / z;
    assert v * g * (v * g) / z == v * g * (v * g) * i && v * v / z == v * v * i;
    assert v * g * (v * g) * i * (u * u) == v * v * i * ((g * u) * (g * u));
  }

  /** Whatever reduction it comes through, the most the coil can get was full scale before it: what the
      budgets are charged. */
  lemma WorstIsFull(c: Curves, s: Spec, db: real)
    requires Lawful(c) && ValidSpec(s)
    ensures BeforeGain(c, WorstCase(c, s, db), db) == FullScale(s)
  {
    var x := Max(db, 0.0);
    var g, u := c.gain(x), c.gain(-x);
    GainUndone(c, x);
    UndoneTerms(s.vsScale, g, u, s.zNominal);
  }

  /** An equal share of the time. */
  function Each(dt: real, n: nat): real
    requires n > 0
  {
    dt / n as real
  }

  function MeanOf(x: seq<real>): real {
    if x == [] then 0.0 else Placement.Sum(x) / |x| as real
  }

  lemma EachAll(dt: real, n: nat)
    requires n > 0 && dt > 0.0
    ensures Each(dt, n) > 0.0 && Times(Each(dt, n), n as real) == dt
  {
    QuotientPositive(dt, n as real);
    DivideTimes(dt, n as real);
  }

  lemma EachNone(dt: real, n: nat)
    requires n > 0 && dt <= 0.0
    ensures Each(dt, n) <= 0.0
  {
    DivideOrder(dt, 0.0, n as real);
  }

  lemma OneMore(h: real, i: nat)
    ensures Times(h, (i + 1) as real) == Times(h, i as real) + h
  {
    assert (i + 1) as real == i as real + 1.0;
  }

  lemma {:induction false} TotalAppend(a: seq<Entry>, b: seq<Entry>)
    ensures Total(a + b) == Total(a) + Total(b)
  {
    if b == [] {
      assert a + b == a;
    } else {
      TotalAppend(a, b[..|b| - 1]);
      assert (a + b)[..|a + b| - 1] == a + b[..|b| - 1];
    }
  }

  lemma ShortStep(e: real, d: real)
    requires e > 0.0 && d > 0.0
    ensures Total([Entry(d, e / d)]) == d && Proper([Entry(d, e / d)])
  {
    OneStep([Entry(d, e / d)]);
    QuotientPositive(e, d);
  }

  /** A rebuilt history is at most a minute long, whatever the means said. */
  lemma ResumedLength(last: real, older: real, full: real)
    requires full > 0.0 && last >= 0.0 && older >= 0.0
    ensures Proper(Resumed(last, older, full)) && Total(Resumed(last, older, full)) <= MINUTE
  {
    var o, s, l := OlderStep(older, full), Silence(last, full), LastStep(last, full);
    TotalAppend(o + s, l);
    TotalAppend(o, s);
    QuotientNonneg(last, full);
    QuotientNonneg(older, full);
    OneStep(s);
    if l != [] { ShortStep(last, Min(last / full, 1.0)); }
    if o != [] { ShortStep(older, Min(older / full, MINUTE - 1.0)); }
    if l == [] { ZeroShare(last, full); }
  }

  lemma ZeroShare(last: real, full: real)
    requires full > 0.0 && last >= 0.0 && LastStep(last, full) == []
    ensures last / full == 0.0
  {
    if last > 0.0 { QuotientPositive(last, full); }
  }

  /** A restart's history, from the means of the last second and the last minute. */
  function Rebuilt(mean1s: real, mean60s: real, full: real): seq<Entry>
    requires full > 0.0
  {
    var last := Max(mean1s, 0.0);
    Resumed(last, Max(MINUTE * mean60s - last, 0.0), full)
  }

  /** From the exact means of a live history, it holds the live history's energy in every window,
      and after any later steps still does. */
  lemma RebuiltCovers(h: seq<Entry>, later: seq<Entry>, full: real)
    requires Proper(h) && Within(h, full) && Proper(later) && full > 0.0
    ensures var r := Rebuilt(Energy(h, 1.0, full) / 1.0, Energy(h, MINUTE, full) / MINUTE, full);
      && Covers(r, h, full)
      && Covers(RecordAll(r, later, full), RecordAll(h, later, full), full)
  {
    hide Rebuilt, Resumed, Covers;
    EnergyGrows(h, 0.0, 1.0, full);
    EnergyGrows(h, 1.0, MINUTE, full);
    RebuiltIs(Energy(h, 1.0, full), Energy(h, MINUTE, full), full);
    ResumeCovers(h, full);
    RestoredBudgetsCover(h, later, full);
  }

  lemma RebuiltIs(second: real, minute: real, full: real)
    requires 0.0 <= second <= minute && full > 0.0
    ensures Rebuilt(second / 1.0, minute / MINUTE, full) == Resumed(second, minute - second, full)
  {
    hide Resumed;
    DivideTimes(minute, MINUTE);
  }

  lemma OneStep(h: seq<Entry>)
    requires |h| <= 1
    ensures Total(h) == if h == [] then 0.0 else h[0].secs
  {
    if h != [] { assert h[..0] == []; }
  }

  /** One turn of the trimming loop: the oldest step goes ... */
  lemma WholeStepGoes(h: seq<Entry>, full: real)
    requires Proper(h) && Total(h) > MINUTE
    ensures h != [] && Proper(h[1..]) && Total(h[1..]) == Total(h) - h[0].secs
    ensures h[0].secs <= Total(h) - MINUTE ==> Trim(h, full) == Trim(h[1..], full)
  {
    TotalTail(h);
  }

  /** ... or its expired part. */
  lemma PartOfStepGoes(h: seq<Entry>, excess: real, full: real)
    requires Proper(h) && full > 0.0 && h != [] && excess == Total(h) - MINUTE && 0.0 < excess < h[0].secs
    ensures var g := [Shrunk(h[0], excess, full)] + h[1..];
      && Trim(h, full) == g && Proper(g) && Total(g) == MINUTE
  {
    TotalTail(h);
    ShrunkKeeps(h[0], excess, full);
    var g := [Shrunk(h[0], excess, full)] + h[1..];
    assert g[1..] == h[1..];
    TotalTail(g);
  }

  /** What a step moves of a driver: its nodes, the time it was stepped, its budgets' history and fault. */
  datatype Snap = Snap(nodes: Nodes, heated: real, history: seq<Entry>, hard: bool)

  class SpeakerState {
    const c: Curves
    const spec: Spec

    var nodes: Nodes
    var power: real
    var vSquare: real
    var tPeak: Bounded
    var hard: bool
    var reductionDb: real
    var thermalDb: real
    var pRecent: real
    var reducing: bool
    var history: seq<Entry>
    var historySecs: real
    /** All the time the model was ever stepped. */
    ghost var heated: real

    ghost predicate Valid()
      reads this
    {
      && Lawful(c) && ValidSpec(spec)
      && tPeak.Peak?
      && 0.0 <= reductionDb && 0.0 <= thermalDb
      && GoodHistory()
    }

    ghost function Now(): Snap
      reads `nodes, `heated, `history, `hard
    {
      Snap(nodes, heated, history, hard)
    }

    ghost predicate GoodHistory()
      reads this
    {
      && Proper(history)
      && historySecs == Total(history) <= MINUTE
    }

    constructor (c: Curves, spec: Spec, tAmbient: real)
      requires Lawful(c) && ValidSpec(spec)
      ensures Valid() && this.c == c && this.spec == spec && heated == 0.0
      ensures nodes == Nodes(tAmbient, tAmbient) && !hard && reductionDb == 0.0 && history == []
    {
      this.c := c;
      this.spec := spec;
      nodes := Nodes(tAmbient, tAmbient);
      power, vSquare, tPeak, hard := 0.0, 0.0, Peak(tAmbient), false;
      reductionDb, thermalDb, pRecent, reducing := 0.0, 0.0, 0.0, false;
      history, historySecs, heated := [], 0.0, 0.0;
    }

    function Full(): real {
      if spec.zNominal > 0.0 then FullScale(spec) else 0.0
    }

    // ---- heating ----------------------------------------------------------------------------

    /** `dt` seconds at `watts`; the coil's bound over them joins `tPeak`, and at the limit it
        latches the fault. */
    method Heat(watts: real, dt: real, ta: real)
      requires ValidSpec(spec)
      modifies `nodes, `tPeak, `hard, `heated
      ensures tPeak.Peak?
      ensures dt > 0.0 ==>
        && nodes == HeatNodes(c, spec, old(nodes), watts, dt, ta)
        && tPeak.t == (var p := HeatPeak(c, spec, old(nodes), watts, dt, ta);
                       if old(tPeak).Peak? then Max(old(tPeak.t), p) else p)
        && (hard <==> old(hard) || tPeak.t >= spec.tLimit)
      ensures dt <= 0.0 ==>
        && nodes == old(nodes) && hard == old(hard)
        && tPeak.t == if old(tPeak).Peak? then Max(old(tPeak.t), nodes.coil) else nodes.coil
      ensures heated == old(heated) + Max(dt, 0.0)
    {
      if !(dt > 0.0) {
        tPeak := Peak(if tPeak.NoPeak? then nodes.coil else Max(tPeak.t, nodes.coil));
        return;
      }
      var end, peak := HeatTemps(c, spec, nodes, watts, dt, ta);
      nodes := end;
      if tPeak.NoPeak? || !(peak <= tPeak.t) {
        tPeak := Peak(peak);
      }
      if !(tPeak.t < spec.tLimit) {
        hard := true;
      }
      heated := heated + dt;
    }

    // ---- the budgets --------------------------------------------------------------------------

    /** A step joins the history; what is older than a minute goes: whole steps, then the expired
        part of the oldest, whose energy may all lie in the rest. */
    method RecordPre(pre: real, dt: real)
      requires Lawful(c) && ValidSpec(spec) && GoodHistory() && pre >= 0.0
      modifies `history, `historySecs
      ensures history == if dt > 0.0 then Record(old(history), Entry(dt, pre), FullScale(spec)) else old(history)
      ensures GoodHistory() && (old(Within(history, FullScale(spec))) ==> Within(history, FullScale(spec)))
    {
      if !(dt > 0.0) {
        return;
      }
      var full := FullScale(spec);
      WorstCaseFull(c, spec);
      var capped := if pre > full then full else pre;
      RecordKeeps(history, Entry(dt, pre), full);
      ghost var all := history + [Entry(dt, capped)];
      assert all[..|history|] == history;
      history := history + [Entry(dt, capped)];
      historySecs := historySecs + dt;
      while historySecs > MINUTE
        invariant Proper(history) && historySecs == Total(history)
        invariant Trim(history, full) == Trim(all, full)
        decreases |history|, historySecs > MINUTE
      {
        var excess := historySecs - MINUTE;
        WholeStepGoes(history, full);
        if history[0].secs <= excess {
          historySecs := historySecs - history[0].secs;
          history := history[1..];
        } else {
          PartOfStepGoes(history, excess, full);
          history := [Shrunk(history[0], excess, full)] + history[1..];
          historySecs := MINUTE;
        }
      }
    }

    /** The most the budgets can see of the last `seconds`: the energy of the history's window over it. */
    method MeanPower(seconds: real) returns (mean: real)
      requires seconds > 0.0
      ensures mean == Energy(history, seconds, Full()) / seconds
    {
      var e := WindowEnergy(history, seconds, Full());
      mean := e / seconds;
    }

    ghost function Mean(seconds: real): real
      requires seconds > 0.0
      reads this
    {
      Energy(history, seconds, Full()) / seconds
    }

    ghost function Budgets(): real
      reads this
    {
      Max(BudgetDb(c, Mean(1.0), spec.pLimit1s), BudgetDb(c, Mean(60.0), spec.pLimit60s))
    }

    /** Through a reduction of `db` the mean of the last `seconds` is within its limit, if it has one. */
    ghost predicate InBudget(seconds: real, limit: real, db: real)
      requires seconds > 0.0
      reads this
    {
      limit > 0.0 ==> Mean(seconds) * (c.gain(db) * c.gain(db)) <= limit
    }

    /** And exactly at it. */
    ghost predicate AtBudget(seconds: real, limit: real, db: real)
      requires seconds > 0.0
      reads this
    {
      limit > 0.0 && Mean(seconds) * (c.gain(db) * c.gain(db)) == limit
    }

    lemma BudgetsHold(db: real)
      requires Lawful(c) && db >= Budgets()
      ensures InBudget(1.0, spec.pLimit1s, db) && InBudget(60.0, spec.pLimit60s, db)
      ensures db == Budgets() > 0.0 ==> AtBudget(1.0, spec.pLimit1s, db) || AtBudget(60.0, spec.pLimit60s, db)
    {
      hide Lawful, Mean;
      BudgetDbNonneg(c, Mean(1.0), spec.pLimit1s);
      BudgetDbNonneg(c, Mean(60.0), spec.pLimit60s);
      if spec.pLimit1s > 0.0 { BudgetHolds(c, Mean(1.0), spec.pLimit1s, db); }
      if spec.pLimit60s > 0.0 { BudgetHolds(c, Mean(60.0), spec.pLimit60s, db); }
    }

    /** More reduction keeps it there. */
    lemma MoreKeepsBudget(seconds: real, limit: real, low: real, high: real)
      requires Lawful(c) && seconds > 0.0 && low <= high && InBudget(seconds, limit, low)
      ensures InBudget(seconds, limit, high)
    {
      hide Mean;
      GainPositive(c, high);
      GainAntitone(c, low, high);
      if limit > 0.0 { SquareFalls(Mean(seconds), limit, c.gain(low), c.gain(high)); }
    }

    /** What brings the mean power over the last second and the last minute to their limits: no less keeps
        both. */
    method BudgetReduction() returns (db: real)
      requires Lawful(c)
      ensures db == Budgets() >= 0.0
      ensures InBudget(1.0, spec.pLimit1s, db) && InBudget(60.0, spec.pLimit60s, db)
      ensures db == 0.0 || AtBudget(1.0, spec.pLimit1s, db) || AtBudget(60.0, spec.pLimit60s, db)
    {
      BudgetsHold(Budgets());
      BudgetDbNonneg(c, Mean(1.0), spec.pLimit1s);
      BudgetDbNonneg(c, Mean(60.0), spec.pLimit60s);
      db := 0.0;
      if spec.pLimit1s > 0.0 {
        var mean := MeanPower(1.0);
        if mean > spec.pLimit1s { db := Max(db, BudgetDb(c, mean, spec.pLimit1s)); }
      }
      if spec.pLimit60s > 0.0 {
        var mean := MeanPower(60.0);
        if mean > spec.pLimit60s { db := Max(db, BudgetDb(c, mean, spec.pLimit60s)); }
      }
    }

    // ---- the steps ------------------------------------------------------------------------------

    /** `dt` seconds with `watts` in the coil and `pre` watts before the card's gain. */
    method StepPre(watts: real, pre: real, dt: real, ta: real)
      requires Valid() && pre >= 0.0
      modifies `nodes, `power, `tPeak, `hard, `history, `historySecs, `heated
      ensures Valid() && power == watts
      ensures Stepped(old(nodes), old(hard), watts, dt, ta)
      ensures history == if dt > 0.0 then Record(old(history), Entry(dt, pre), FullScale(spec)) else old(history)
      ensures heated == old(heated) + Max(dt, 0.0)
    {
      power := watts;
      RecordPre(pre, dt);
      tPeak := NoPeak;
      Heat(watts, dt, ta);
    }

    /** Where one step from `n` leaves the coil, its bound and the fault. */
    ghost predicate Stepped(n: Nodes, wasHard: bool, watts: real, dt: real, ta: real)
      requires ValidSpec(spec)
      reads this
    {
      && tPeak.Peak?
      && (dt > 0.0 ==>
            && nodes == HeatNodes(c, spec, n, watts, dt, ta)
            && tPeak.t == HeatPeak(c, spec, n, watts, dt, ta)
            && (hard <==> wasHard || tPeak.t >= spec.tLimit))
      && (dt <= 0.0 ==> nodes == n && tPeak.t == n.coil && hard == wasHard)
    }

    /** `dt` seconds with `watts` in the coil while the card applied `appliedDb`: the budgets keep the
        power before the gain. */
    method StepAt(watts: real, dt: real, ta: real, appliedDb: real)
      requires Valid() && watts >= 0.0
      modifies `nodes, `power, `tPeak, `hard, `history, `historySecs, `heated
      ensures Valid() && power == watts
      ensures Stepped(old(nodes), old(hard), watts, dt, ta)
      ensures history == if dt > 0.0 then Record(old(history), Entry(dt, BeforeGain(c, watts, appliedDb)), FullScale(spec))
                         else old(history)
      ensures heated == old(heated) + Max(dt, 0.0)
    {
      BeforeGainNonneg(c, watts, appliedDb);
      StepPre(watts, BeforeGain(c, watts, appliedDb), dt, ta);
    }

    /** `dt` seconds in equal blocks of `powers` watts, `pre` before the gain: the budgets get the
        mean, the coil each block; with no blocks it cools. */
    method StepPeriodPre(powers: seq<real>, pre: seq<real>, dt: real, ta: real)
      requires Valid() && |powers| == |pre| && Placement.Sum(pre) >= 0.0
      modifies `nodes, `power, `tPeak, `hard, `history, `historySecs, `heated
      ensures Valid() && power == MeanOf(powers)
      ensures dt > 0.0 && powers != [] ==>
        && Each(dt, |powers|) > 0.0
        && nodes == HeatAll(c, spec, old(nodes), powers, Each(dt, |powers|), ta)
        && tPeak == Peak(PeakAll(c, spec, old(nodes), powers, Each(dt, |powers|), ta))
        && (hard <==> old(hard) || tPeak.t >= spec.tLimit)
      ensures dt <= 0.0 || powers == [] ==> Stepped(old(nodes), old(hard), 0.0, dt, ta)
      ensures history == if dt > 0.0 then Record(old(history), Entry(dt, MeanOf(pre)), FullScale(spec)) else old(history)
      ensures heated == old(heated) + Max(dt, 0.0)
    {
      power := MeanOf(powers);
      if pre != [] { QuotientNonneg(Placement.Sum(pre), |pre| as real); }
      RecordPre(MeanOf(pre), dt);
      tPeak := NoPeak;
      HeatPeriod(powers, dt, ta);
    }

    method HeatPeriod(powers: seq<real>, dt: real, ta: real)
      requires ValidSpec(spec) && tPeak.NoPeak?
      modifies `nodes, `tPeak, `hard, `heated
      ensures tPeak.Peak? && heated == old(heated) + Max(dt, 0.0)
      ensures dt > 0.0 && powers != [] ==>
        && Each(dt, |powers|) > 0.0
        && nodes == HeatAll(c, spec, old(nodes), powers, Each(dt, |powers|), ta)
        && tPeak == Peak(PeakAll(c, spec, old(nodes), powers, Each(dt, |powers|), ta))
        && (hard <==> old(hard) || tPeak.t >= spec.tLimit)
      ensures dt <= 0.0 || powers == [] ==> Stepped(old(nodes), old(hard), 0.0, dt, ta)
    {
      hide HeatNodes, HeatPeak;
      if powers == [] {
        Heat(0.0, dt, ta);
      } else if dt > 0.0 {
        EachAll(dt, |powers|);
        HeatBlocks(powers, Each(dt, |powers|), ta);
      } else {
        EachNone(dt, |powers|);
        for i := 0 to |powers|
          invariant nodes == old(nodes) && hard == old(hard) && heated == old(heated)
          invariant if i == 0 then tPeak.NoPeak? else tPeak == Peak(nodes.coil)
        {
          Heat(powers[i], Each(dt, |powers|), ta);
        }
      }
    }

    method HeatBlocks(powers: seq<real>, h: real, ta: real)
      requires ValidSpec(spec) && h > 0.0 && powers != [] && tPeak.NoPeak?
      modifies `nodes, `tPeak, `hard, `heated
      ensures nodes == HeatAll(c, spec, old(nodes), powers, h, ta)
      ensures tPeak == Peak(PeakAll(c, spec, old(nodes), powers, h, ta))
      ensures hard <==> old(hard) || tPeak.t >= spec.tLimit
      ensures heated == old(heated) + Times(h, |powers| as real)
    {
      var i := 0;
      while i < |powers|
        invariant 0 <= i <= |powers|
        invariant i == 0 ==> tPeak.NoPeak? && hard == old(hard)
        invariant nodes == HeatAll(c, spec, old(nodes), powers[..i], h, ta)
        invariant i > 0 ==> tPeak == Peak(PeakAll(c, spec, old(nodes), powers[..i], h, ta))
        invariant i > 0 ==> (hard <==> old(hard) || tPeak.t >= spec.tLimit)
        invariant heated == old(heated) + Times(h, i as real)
      {
        assert powers[..i + 1][..i] == powers[..i];
        Heat(powers[i], h, ta);
        OneMore(h, i);
        i := i + 1;
      }
      assert powers[..i] == powers;
    }

    // ---- the governor -----------------------------------------------------------------------------

    /** The hottest the coil may have been over the last step. */
    ghost function Hottest(): real
      requires tPeak.Peak?
      reads this
    {
      Max(nodes.coil, tPeak.t)
    }

    /** The governor was asked since anything moved: the reduction covers the coil's window and keeps both budgets. */
    ghost predicate Governed(g: Globals)
      requires tPeak.Peak? && g.tWindow > 0.0
      reads this
    {
      && thermalDb == ThermalDb(spec, g, reducing, Hottest()) && thermalDb <= reductionDb
      && (Hottest() > spec.tLimit - spec.tHeadroom - g.tWindow ==> reducing)
      && InBudget(1.0, spec.pLimit1s, reductionDb) && InBudget(60.0, spec.pLimit60s, reductionDb)
    }

    /** Attack at once, release at most half a dB: both budgets are kept, and what is asked for beyond the
        coil's window and the release brings one of them exactly to its limit. */
    method Govern(g: Globals)
      requires Valid() && ValidGlobals(g)
      modifies `reducing, `thermalDb, `reductionDb
      ensures Valid() && Governed(g)
      ensures InBudget(1.0, spec.pLimit1s, reductionDb) && InBudget(60.0, spec.pLimit60s, reductionDb)
      ensures reductionDb > thermalDb && reductionDb > old(reductionDb) - 0.5 ==>
        AtBudget(1.0, spec.pLimit1s, reductionDb) || AtBudget(60.0, spec.pLimit60s, reductionDb)
      ensures var start := spec.tLimit - spec.tHeadroom - g.tWindow;
        reducing == if Hottest() > start then true else if Hottest() < start - g.tHysteresis then false else old(reducing)
      ensures thermalDb == ThermalDb(spec, g, reducing, Hottest())
      ensures reductionDb == Max(Max(thermalDb, Budgets()), old(reductionDb) - 0.5)
    {
      var ceiling := spec.tLimit - spec.tHeadroom;
      var start := ceiling - g.tWindow;
      var t := Max(nodes.coil, tPeak.t);
      if t > start {
        reducing := true;
      } else if t < start - g.tHysteresis {
        reducing := false;
      }
      thermalDb := ThermalDb(spec, g, reducing, t);
      var budget := BudgetReduction();
      var wanted := Max(thermalDb, budget);
      reductionDb := if wanted >= reductionDb then wanted else Max(reductionDb - 0.5, wanted);
      BudgetsHold(reductionDb);
    }

    /** A latched fault clears once the coil and its bound are back under the working ceiling. */
    method ClearHardIfCool() returns (cleared: bool)
      requires Valid()
      modifies `hard
      ensures Valid()
      ensures cleared <==> old(hard) && Hottest() < spec.tLimit - spec.tHeadroom
      ensures hard <==> old(hard) && !cleared
    {
      cleared := hard && Max(tPeak.t, nodes.coil) < spec.tLimit - spec.tHeadroom;
      if cleared { hard := false; }
    }

    // ---- the starts -------------------------------------------------------------------------------

    /** An unknown past: both nodes at the limit, then a drain at full scale; a minute of it before
        the gain. */
    method AssumeLatched(ta: real)
      requires Valid()
      modifies `nodes, `tPeak, `hard, `history, `historySecs, `heated
      ensures Valid() && hard && heated == 0.0
      ensures nodes == Latch.Latched(c, spec, FullScale(spec), ta) && tPeak.t == nodes.coil
      ensures history == [Entry(MINUTE, FullScale(spec))]
    {
      nodes := Nodes(spec.tLimit, spec.tLimit);
      tPeak := Peak(spec.tLimit);
      Heat(WorstCase(c, spec, 0.0), Latch.DRAIN_S, ta);
      nodes := nodes.(coil := tPeak.t);
      hard := true;
      WorstCaseFull(c, spec);
      history := [Entry(MINUTE, FullScale(spec))];
      assert history[..0] == [];
      historySecs := MINUTE;
      heated := 0.0;
    }

    /** The steady state at `watts`; the budgets see a minute at `pre`. */
    method SettleAt(watts: real, pre: real, ta: real)
      requires Valid() && pre >= 0.0
      modifies `nodes, `tPeak, `history, `historySecs
      ensures Valid()
      ensures nodes == Nodes(ta + watts * spec.trMagnet + watts * spec.trCoil, ta + watts * spec.trMagnet)
      ensures tPeak == Peak(nodes.coil)
      ensures history == [Entry(MINUTE, Min(pre, FullScale(spec)))]
    {
      var magnet := ta + watts * spec.trMagnet;
      nodes := Nodes(magnet + watts * spec.trCoil, magnet);
      tPeak := Peak(nodes.coil);
      var full := FullScale(spec);
      WorstCaseFull(c, spec);
      history := [Entry(MINUTE, if pre > full then full else pre)];
      assert history[..0] == [];
      historySecs := MINUTE;
    }

    /** A saved state: the temperatures, and a history as late as its two means allow. */
    method Resume(tCoil: real, tMagnet: real, mean1s: real, mean60s: real)
      requires Valid()
      modifies `nodes, `tPeak, `hard, `history, `historySecs, `heated
      ensures Valid() && nodes == Nodes(tCoil, tMagnet) && tPeak == Peak(tCoil) && !hard && heated == 0.0
      ensures FullScale(spec) > 0.0 && history == Rebuilt(mean1s, mean60s, FullScale(spec))
    {
      nodes := Nodes(tCoil, tMagnet);
      tPeak := Peak(tCoil);
      hard := false;
      var full := FullScale(spec);
      WorstCaseFull(c, spec);
      ResumedLength(Max(mean1s, 0.0), Max(MINUTE * mean60s - Max(mean1s, 0.0), 0.0), full);
      history := Rebuilt(mean1s, mean60s, full);
      historySecs := Total(history);
      heated := 0.0;
    }

    /** What the governor keeps across a restart. A file that does not say whether there was a fault counts
        as one unless the coil is under the working ceiling. */
    method ResumeGovernor(wasHard: Option<bool>, peak: real, reduction: real)
      requires Valid()
      modifies `tPeak, `hard, `reductionDb, `reducing
      ensures Valid() && tPeak == Peak(Max(peak, nodes.coil))
      ensures hard <==> wasHard == Some(true) || (wasHard.None? && nodes.coil >= spec.tLimit - spec.tHeadroom)
      ensures reductionDb == Max(reduction, 0.0) && (reducing <==> reductionDb > 0.0)
    {
      tPeak := Peak(Max(peak, nodes.coil));
      hard := if wasHard.Some? then wasHard.value else !(nodes.coil < spec.tLimit - spec.tHeadroom);
      reductionDb := Max(reduction, 0.0);
      reducing := reductionDb > 0.0;
    }
  }
}
