/** All the drivers of a card, stepped together (src/guard.rs, the loops of `charge`, `cool` and
    `measure_shifted`). */
module Bank {
  import opened Config
  import opened Curves
  import opened Reals
  import opened Thermal
  import opened Inversion
  import opened Budget
  import opened Speaker
  import opened Placement

  ghost predicate Sound(ss: seq<SpeakerState>, c: Curves) {
    && (forall i, j :: 0 <= i < j < |ss| ==> ss[i] != ss[j])
    && (forall i :: 0 <= i < |ss| ==> ss[i].c == c && ValidSpec(ss[i].spec))
  }

  ghost predicate AllValid(ss: seq<SpeakerState>)
    reads ss
  {
    forall i :: 0 <= i < |ss| ==> ss[i].Valid()
  }

  /** Every governor was asked since anything moved. */
  ghost predicate AllGoverned(ss: seq<SpeakerState>, g: Globals)
    requires g.tWindow > 0.0
    reads ss
  {
    forall i :: 0 <= i < |ss| ==> ss[i].tPeak.Peak? && ss[i].Governed(g)
  }

  // ---- charging and cooling -----------------------------------------------------------------------

  /** A driver that was at `was`, stepped `d` seconds at `watts`, `pre` before the gain: its nodes, its
      time, its budgets' history, and the fault latched exactly when the bound reached the limit. */
  ghost function StepSnap(c: Curves, s: Spec, was: Snap, watts: real, pre: real, d: real, ta: real): Snap
    requires ValidSpec(s) && d > 0.0
  {
    Snap(HeatNodes(c, s, was.nodes, watts, d, ta), was.heated + d, Record(was.history, Entry(d, pre), FullScale(s)),
         was.hard || HeatPeak(c, s, was.nodes, watts, d, ta) >= s.tLimit)
  }

  ghost predicate SteppedTo(s: SpeakerState, was: Snap, watts: real, pre: real, d: real, ta: real)
    requires ValidSpec(s.spec) && d > 0.0
    reads s
  {
    s.power == watts && s.Now() == StepSnap(s.c, s.spec, was, watts, pre, d, ta)
  }

  method StepOne(s: SpeakerState, watts: real, d: real, least: real, g: Globals)
    requires s.Valid() && ValidGlobals(g) && d > 0.0 && watts >= 0.0
    modifies s
    ensures s.Valid() && SteppedTo(s, old(s.Now()), watts, BeforeGain(s.c, watts, least), d, g.tAmbient) && s.Governed(g)
  {
    hide Record, HeatNodes, HeatPeak, BeforeGain, SpeakerState.Governed;
    s.StepAt(watts, d, g.tAmbient, least);
    s.Govern(g);
  }

  /** Every driver stepped `d` seconds at its own power, while the card applied `least`. */
  method StepAll(ss: seq<SpeakerState>, c: Curves, watts: seq<real>, d: real, least: real, g: Globals)
    requires Sound(ss, c) && AllValid(ss) && ValidGlobals(g) && d > 0.0
    requires |watts| == |ss| && forall i :: 0 <= i < |ss| ==> watts[i] >= 0.0
    modifies ss
    ensures AllValid(ss) && AllGoverned(ss, g)
    ensures forall i :: 0 <= i < |ss| ==>
      SteppedTo(ss[i], old(ss[i].Now()), watts[i], BeforeGain(c, watts[i], least), d, g.tAmbient)
  {
    hide SteppedTo, BeforeGain, SpeakerState.Governed;
    for n := 0 to |ss|
      invariant AllValid(ss)
      invariant forall i :: 0 <= i < n ==> ss[i].tPeak.Peak? && ss[i].Governed(g)
      invariant forall i :: 0 <= i < n ==>
        SteppedTo(ss[i], old(ss[i].Now()), watts[i], BeforeGain(c, watts[i], least), d, g.tAmbient)
      invariant forall i :: n <= i < |ss| ==> ss[i].Now() == old(ss[i].Now())
    {
      StepOne(ss[n], watts[n], d, least, g);
    }
  }

  lemma FullThroughNothing(c: Curves, s: Spec)
    requires Lawful(c) && ValidSpec(s)
    ensures WorstCase(c, s, 0.0) == FullScale(s) >= 0.0 && BeforeGain(c, FullScale(s), 0.0) == FullScale(s)
  {
    WorstCaseFull(c, s);
    WorstIsFull(c, s, 0.0);
  }

  /** Every driver at full scale and full gain for `d` seconds: what two readings of a clock leave open. */
  method ChargeFull(ss: seq<SpeakerState>, c: Curves, d: real, g: Globals)
    requires Lawful(c) && Sound(ss, c) && AllValid(ss) && ValidGlobals(g) && d > 0.0
    modifies ss
    ensures AllValid(ss) && AllGoverned(ss, g)
    ensures forall i :: 0 <= i < |ss| ==>
      ss[i].Now() == StepSnap(c, ss[i].spec, old(ss[i].Now()), FullScale(ss[i].spec), FullScale(ss[i].spec), d, g.tAmbient)
  {
    hide StepSnap, BeforeGain, WorstCase, FullScale, Lawful, AllGoverned;
    forall i | 0 <= i < |ss|
      ensures FullScale(ss[i].spec) >= 0.0 && BeforeGain(c, FullScale(ss[i].spec), 0.0) == FullScale(ss[i].spec)
    {
      FullThroughNothing(c, ss[i].spec);
    }
    var watts := seq(|ss|, i requires 0 <= i < |ss| => FullScale(ss[i].spec));
    StepAll(ss, c, watts, d, 0.0, g);
    forall i | 0 <= i < |ss|
      ensures ss[i].Now() == StepSnap(c, ss[i].spec, old(ss[i].Now()), FullScale(ss[i].spec), FullScale(ss[i].spec), d,
                                      g.tAmbient)
    {
      assert watts[i] == FullScale(ss[i].spec);
    }
  }

  method GovernOne(s: SpeakerState, g: Globals)
    requires s.Valid() && ValidGlobals(g)
    modifies s
    ensures s.Valid() && s.Governed(g) && s.Now() == old(s.Now())
  {
    hide SpeakerState.Governed;
    s.Govern(g);
  }

  /** The governors asked, nothing else moved. */
  method GovernAll(ss: seq<SpeakerState>, c: Curves, g: Globals)
    requires Sound(ss, c) && AllValid(ss) && ValidGlobals(g)
    modifies ss
    ensures AllValid(ss) && forall i :: 0 <= i < |ss| ==> ss[i].Now() == old(ss[i].Now())
    ensures AllGoverned(ss, g)
  {
    hide SpeakerState.Governed;
    for n := 0 to |ss|
      invariant AllValid(ss)
      invariant forall i :: 0 <= i < n ==> ss[i].tPeak.Peak? && ss[i].Governed(g)
      invariant forall i :: 0 <= i < |ss| ==> ss[i].Now() == old(ss[i].Now())
    {
      GovernOne(ss[n], g);
    }
  }

  // ---- a measured run -------------------------------------------------------------------------------

  /** One stretch of whole frames (or the part of one) integrated in its blocks. */
  function StretchNodes(c: Curves, s: Spec, n: Nodes, x: seq<real>, secs: real, period: nat, ta: real): Nodes
    requires ValidSpec(s) && x != [] && secs > 0.0 && period > 0
  {
    EachAll(secs, Blocks(|x|, period));
    HeatAll(c, s, n, Means(x, Blocks(|x|, period)), Each(secs, Blocks(|x|, period)), ta)
  }

  /** The highest bound over its blocks. */
  function StretchPeak(c: Curves, s: Spec, n: Nodes, x: seq<real>, secs: real, period: nat, ta: real): real
    requires ValidSpec(s) && x != [] && secs > 0.0 && period > 0
  {
    EachAll(secs, Blocks(|x|, period));
    PeakAll(c, s, n, Means(x, Blocks(|x|, period)), Each(secs, Blocks(|x|, period)), ta)
  }

  /** The blocks of a stretch carry its frames' mean power over the time it is given. */
  lemma StretchEnergy(x: seq<real>, secs: real, period: nat)
    requires x != [] && period > 0
    ensures MeanOf(Means(x, Blocks(|x|, period))) == MeanOf(x)
  {
    var b := Blocks(|x|, period);
    var m := Means(x, b);
    MeansCarryAll(x, b);
    SameMean(Sum(m), Sum(x), b as real, |x| as real);
  }

  lemma SameMean(a: real, e: real, b: real, n: real)
    requires b > 0.0 && n > 0.0 && Times(a, n / b) == e
    ensures a / b == e / n
  {
    DivideTimes(n, b);
    DivideTimes(a, b);
    DivideTimes(e, n);
    MeanTerms(a, e, b, n, n / b, a / b, e / n);
  }

  lemma MeanTerms(a: real, e: real, b: real, n: real, r: real, x: real, y: real)
    requires b > 0.0 && n > 0.0 && a * r == e && r * b == n && x * b == a && y * n == e
    ensures x == y
  {
    assert x * n == y * n by { assert x * n == x * b * r; }
    Cancel(n, x, y);
  }

  /** How long `k` frames last, the first of them for `first` of a frame. */
  function RunSecs(k: nat, first: real, rate: real): real
    requires k > 0 && rate > 0.0
  {
    ((k - 1) as real + first) / rate
  }

  function FrameSecs(n: nat, rate: real): real
    requires rate > 0.0
  {
    n as real / rate
  }

  /** A run whose first frame may count in part. */
  function MeasuredNodes(c: Curves, s: Spec, n: Nodes, heat: seq<real>, first: real, rate: real, period: nat, ta: real): Nodes
    requires ValidSpec(s) && heat != [] && 0.0 < first <= 1.0 && rate > 0.0 && period > 0
  {
    QuotientPositive(first, rate);
    QuotientPositive(|heat| as real, rate);
    if first == 1.0 then StretchNodes(c, s, n, heat, FrameSecs(|heat|, rate), period, ta)
    else
      var part := StretchNodes(c, s, n, heat[..1], first / rate, period, ta);
      if |heat| == 1 then part
      else
        QuotientPositive((|heat| - 1) as real, rate);
        StretchNodes(c, s, part, heat[1..], FrameSecs(|heat| - 1, rate), period, ta)
  }

  /** The highest bound over such a run. */
  function MeasuredPeak(c: Curves, s: Spec, n: Nodes, heat: seq<real>, first: real, rate: real, period: nat, ta: real): real
    requires ValidSpec(s) && heat != [] && 0.0 < first <= 1.0 && rate > 0.0 && period > 0
  {
    QuotientPositive(first, rate);
    QuotientPositive(|heat| as real, rate);
    if first == 1.0 then StretchPeak(c, s, n, heat, FrameSecs(|heat|, rate), period, ta)
    else
      var peak := StretchPeak(c, s, n, heat[..1], first / rate, period, ta);
      if |heat| == 1 then peak
      else
        QuotientPositive((|heat| - 1) as real, rate);
        var part := StretchNodes(c, s, n, heat[..1], first / rate, period, ta);
        Max(peak, StretchPeak(c, s, part, heat[1..], FrameSecs(|heat| - 1, rate), period, ta))
  }

  lemma {:induction false} SumNonneg(x: seq<real>)
    requires forall i :: 0 <= i < |x| ==> x[i] >= 0.0
    ensures Sum(x) >= 0.0
  {
    if x != [] { SumNonneg(x[..|x| - 1]); }
  }

  lemma MeansNonneg(x: seq<real>, period: nat)
    requires x != [] && period > 0 && forall i :: 0 <= i < |x| ==> x[i] >= 0.0
    ensures Sum(Means(x, Blocks(|x|, period))) >= 0.0
  {
    var b := Blocks(|x|, period);
    SumNonneg(x);
    QuotientNonneg(Sum(x), |x| as real);
    StretchEnergy(x, 0.0, period);
    var m := Sum(Means(x, b));
    DivideTimes(m, b as real);
    Nonneg(m / b as real, b as real);
  }

  lemma BeforeNonneg(c: Curves, s: Spec, w: int, possible: seq<Range>)
    requires Lawful(c) && ValidSpec(s)
    ensures Before(c, s, w, possible) >= 0.0
  {
    var db := Converted(RoomOf(c, w), possible);
    var up, g := StepAbove(s, w), c.gain(-db);
    QuotientPositive(s.vsScale, FULL_WORD);
    Nonneg((Abs(w) + 1) as real, s.vsScale / FULL_WORD);
    PowersOrdered(s, 0.0, s.vsScale);
    GainPositive(c, -db);
    var volts := Undoing(up, g);
    UndoneIsPower(c, s, w, db, volts);
    PowerOrder(s, 0.0, volts);
    assert Power(s, 0.0) == 0.0;
  }

  lemma Undoing(up: real, g: real) returns (volts: real)
    requires up >= 0.0 && g >= 0.0
    ensures volts == up * g && volts >= 0.0
  {
    volts := up * g;
    Nonneg(up, g);
  }

  /** Of the runs the `k` newest frames can have been, the loudest. */
  function MostRun(x: seq<real>, certain: nat, k: nat, shift: nat): (r: seq<real>)
    requires 0 < k <= certain && shift + certain == |x|
    ensures |r| == k && forall i :: 0 <= i < k ==> r[i] in x
  {
    RunAt(x, certain, k, Placement.Best(x, certain, k, shift))
  }

  /** The largest of them. */
  ghost predicate IsLoudest(p: real, x: seq<real>) {
    p in x && forall i :: 0 <= i < |x| ==> x[i] <= p
  }

  lemma LoudestOfBoth(p: real, x: seq<real>, q: real, y: seq<real>)
    requires IsLoudest(p, x) && IsLoudest(q, y)
    ensures IsLoudest(Max(p, q), x + y)
  {
    assert p in x + y && q in x + y;
  }

  /** The powers of the blocks a run is integrated in. */
  function BlockPowers(heat: seq<real>, first: real, period: nat): seq<real>
    requires heat != [] && period > 0
  {
    if first == 1.0 then Means(heat, Blocks(|heat|, period))
    else
      Means(heat[..1], Blocks(1, period))
      + if |heat| == 1 then [] else Means(heat[1..], Blocks(|heat| - 1, period))
  }

  /** One stretch of a measured run. */
  method MeasureStretch(s: SpeakerState, heat: seq<real>, budget: seq<real>, secs: real, g: Globals) returns (loudest: real)
    requires s.Valid() && ValidGlobals(g) && secs > 0.0 && |heat| == |budget| > 0
    requires forall i :: 0 <= i < |budget| ==> budget[i] >= 0.0
    modifies s
    ensures s.Valid()
    ensures s.nodes == StretchNodes(s.c, s.spec, old(s.nodes), heat, secs, g.period, g.tAmbient)
    ensures s.history == Record(old(s.history), Entry(secs, MeanOf(budget)), FullScale(s.spec))
    ensures s.heated == old(s.heated) + secs
    ensures s.tPeak == Peak(StretchPeak(s.c, s.spec, old(s.nodes), heat, secs, g.period, g.tAmbient))
    ensures s.hard <==> old(s.hard) || s.tPeak.t >= s.spec.tLimit
    ensures IsLoudest(loudest, Means(heat, Blocks(|heat|, g.period)))
  {
    var blocks := Blocks(|heat|, g.period);
    var powers, pre := Means(heat, blocks), Means(budget, blocks);
    MeansNonneg(budget, g.period);
    StretchEnergy(budget, secs, g.period);
    s.StepPeriodPre(powers, pre, secs, g.tAmbient);
    loudest := LoudestOf(powers);
  }

  method LoudestOf(x: seq<real>) returns (loudest: real)
    requires x != []
    ensures IsLoudest(loudest, x)
  {
    loudest := x[0];
    for i := 1 to |x|
      invariant loudest in x && forall k :: 0 <= k < i ==> x[k] <= loudest
    {
      loudest := Max(loudest, x[i]);
    }
  }

  /** The budgets' history after a run whose first frame may count in part. */
  function MeasuredHistory(h: seq<Entry>, budget: seq<real>, first: real, rate: real, full: real): seq<Entry>
    requires budget != [] && rate > 0.0
  {
    if first == 1.0 then Record(h, Entry(FrameSecs(|budget|, rate), MeanOf(budget)), full)
    else
      var part := Record(h, Entry(first / rate, MeanOf(budget[..1])), full);
      if |budget| == 1 then part else Record(part, Entry(FrameSecs(|budget| - 1, rate), MeanOf(budget[1..])), full)
  }

  /** The energy of a run, its first frame for `first` of itself. */
  function Weighted(x: seq<real>, first: real): real
    requires x != []
  {
    Times(x[0], first) + Sum(x[1..])
  }

  /** The energy the blocks of a stretch carry. */
  function StretchJoules(x: seq<real>, secs: real, period: nat): real
    requires x != [] && period > 0
  {
    Times(MeanOf(Means(x, Blocks(|x|, period))), secs)
  }

  function RunJoules(x: seq<real>, first: real, rate: real, period: nat): real
    requires x != [] && period > 0 && rate > 0.0
  {
    if first == 1.0 then StretchJoules(x, FrameSecs(|x|, rate), period)
    else
      StretchJoules(x[..1], first / rate, period)
      + if |x| == 1 then 0.0 else StretchJoules(x[1..], FrameSecs(|x| - 1, rate), period)
  }

  lemma WholeStretch(x: seq<real>, rate: real, period: nat)
    requires x != [] && period > 0 && rate > 0.0
    ensures StretchJoules(x, FrameSecs(|x|, rate), period) == Sum(x) / rate
  {
    StretchEnergy(x, 0.0, period);
    MeanTime(Sum(x), |x| as real, rate);
  }

  lemma MeanTime(e: real, n: real, rate: real)
    requires n > 0.0 && rate > 0.0
    ensures Times(e / n, n / rate) == e / rate
  {
    var i := 1.0 / rate;
    DivideTimes(e, n);
    assert n / rate == n * i && e / rate == e * i;
    assert e / n * (n * i) == (e / n * n) * i;
  }

  lemma FirstStretch(x: seq<real>, first: real, rate: real, period: nat)
    requires |x| == 1 && period > 0 && rate > 0.0
    ensures StretchJoules(x, first / rate, period) == Times(x[0], first) / rate
  {
    StretchEnergy(x, 0.0, period);
    assert x[..0] == [];
    SelfQuotient(1.0);
    assert MeanOf(x) == x[0];
    FirstTerms(x[0], first, rate);
  }

  lemma FirstTerms(x: real, first: real, rate: real)
    requires rate > 0.0
    ensures Times(x, first / rate) == Times(x, first) / rate
  {
    var i := 1.0 / rate;
    assert first / rate == first * i && x * first / rate == x * first * i;
  }

  lemma AddOver(a: real, b: real, rate: real)
    requires rate > 0.0
    ensures a / rate + b / rate == (a + b) / rate
    ensures 0.0 / rate == 0.0
  {
    var i := 1.0 / rate;
    assert a / rate == a * i && b / rate == b * i && (a + b) / rate == (a + b) * i;
  }

  lemma WholeRunEnergy(x: seq<real>, rate: real, period: nat)
    requires x != [] && period > 0 && rate > 0.0
    ensures RunJoules(x, 1.0, rate, period) == Weighted(x, 1.0) / rate
  {
    WholeStretch(x, rate, period);
    assert Sum(x) == Weighted(x, 1.0) by {
      SumSlice(x, 1, |x|);
      SumOne(x, 0);
      assert x[..|x|] == x && x[..1] == x[0..1] && x[1..|x|] == x[1..];
    }
  }

  lemma PartRunEnergy(x: seq<real>, first: real, rate: real, period: nat)
    requires x != [] && period > 0 && rate > 0.0 && first != 1.0
    ensures RunJoules(x, first, rate, period) == Weighted(x, first) / rate
  {
    var front, rest := x[..1], x[1..];
    FirstStretch(front, first, rate, period);
    AddOver(Times(front[0], first), Sum(rest), rate);
    if |x| > 1 { WholeStretch(rest, rate, period); }
  }

  /** The blocks of a run carry exactly its energy, the first frame weighted by its part. */
  lemma RunEnergy(x: seq<real>, first: real, rate: real, period: nat)
    requires x != [] && period > 0 && rate > 0.0
    ensures RunJoules(x, first, rate, period) == Weighted(x, first) / rate
  {
    if first == 1.0 {
      WholeRunEnergy(x, rate, period);
    } else {
      PartRunEnergy(x, first, rate, period);
    }
  }

  // ---- one driver's share of measured frames --------------------------------------------------------

  /** A driver that was at `was`, stepped through the most energetic runs of its frames' powers. */
  ghost function MeasuredSnap(c: Curves, s: Spec, was: Snap, heat: seq<real>, budget: seq<real>, first: real, rate: real,
                              g: Globals): Snap
    requires ValidSpec(s) && ValidGlobals(g) && |heat| == |budget| > 0 && 0.0 < first <= 1.0 && rate > 0.0
  {
    Snap(MeasuredNodes(c, s, was.nodes, heat, first, rate, g.period, g.tAmbient),
         was.heated + RunSecs(|heat|, first, rate),
         MeasuredHistory(was.history, budget, first, rate, FullScale(s)),
         was.hard || MeasuredPeak(c, s, was.nodes, heat, first, rate, g.period, g.tAmbient) >= s.tLimit)
  }

  ghost predicate MeasuredTo(s: SpeakerState, was: Snap, heat: seq<real>, budget: seq<real>, first: real, rate: real,
                             g: Globals)
    requires ValidSpec(s.spec) && ValidGlobals(g) && |heat| == |budget| > 0 && 0.0 < first <= 1.0 && rate > 0.0
    reads s
  {
    && s.Now() == MeasuredSnap(s.c, s.spec, was, heat, budget, first, rate, g)
    && s.tPeak == Peak(MeasuredPeak(s.c, s.spec, was.nodes, heat, first, rate, g.period, g.tAmbient))
    && IsLoudest(s.pRecent, BlockPowers(heat, first, g.period))
  }

  method MeasureWhole(s: SpeakerState, heat: seq<real>, budget: seq<real>, rate: real, g: Globals)
    requires s.Valid() && ValidGlobals(g) && |heat| == |budget| > 0 && rate > 0.0
    requires forall i :: 0 <= i < |budget| ==> budget[i] >= 0.0
    modifies s
    ensures s.Valid() && MeasuredTo(s, old(s.Now()), heat, budget, 1.0, rate, g)
  {
    hide StretchNodes, StretchPeak, Record;
    QuotientPositive(|heat| as real, rate);
    var loudest := MeasureStretch(s, heat, budget, FrameSecs(|heat|, rate), g);
    s.pRecent := loudest;
  }

  /** What is left of a run after its first frame. */
  method MeasureRest(s: SpeakerState, heat: seq<real>, budget: seq<real>, rate: real, g: Globals) returns (loudest: real)
    requires s.Valid() && ValidGlobals(g) && |heat| == |budget| > 0 && rate > 0.0
    requires forall i :: 0 <= i < |budget| ==> budget[i] >= 0.0
    modifies s
    ensures s.Valid() && FrameSecs(|heat|, rate) > 0.0
    ensures s.nodes == StretchNodes(s.c, s.spec, old(s.nodes), heat, FrameSecs(|heat|, rate), g.period, g.tAmbient)
    ensures s.history == Record(old(s.history), Entry(FrameSecs(|heat|, rate), MeanOf(budget)), FullScale(s.spec))
    ensures s.heated == old(s.heated) + FrameSecs(|heat|, rate)
    ensures var peak := StretchPeak(s.c, s.spec, old(s.nodes), heat, FrameSecs(|heat|, rate), g.period, g.tAmbient);
      s.tPeak == Peak(Max(old(s.tPeak.t), peak)) && (s.hard <==> old(s.hard) || peak >= s.spec.tLimit)
    ensures IsLoudest(loudest, Means(heat, Blocks(|heat|, g.period)))
  {
    hide StretchNodes, StretchPeak, Record;
    var peak := s.tPeak.t;
    QuotientPositive(|heat| as real, rate);
    loudest := MeasureStretch(s, heat, budget, FrameSecs(|heat|, rate), g);
    s.tPeak := Peak(Max(peak, s.tPeak.t));
  }

  /** The two stretches of such a run. */
  lemma InPart(c: Curves, s: Spec, n: Nodes, heat: seq<real>, first: real, rate: real, g: Globals)
    requires ValidSpec(s) && ValidGlobals(g) && heat != [] && 0.0 < first < 1.0 && rate > 0.0
    ensures first / rate > 0.0
    ensures var mid := StretchNodes(c, s, n, heat[..1], first / rate, g.period, g.tAmbient);
      var peak := StretchPeak(c, s, n, heat[..1], first / rate, g.period, g.tAmbient);
      && (|heat| == 1 ==>
            && MeasuredNodes(c, s, n, heat, first, rate, g.period, g.tAmbient) == mid
            && MeasuredPeak(c, s, n, heat, first, rate, g.period, g.tAmbient) == peak)
      && (|heat| > 1 ==>
            && FrameSecs(|heat| - 1, rate) > 0.0
            && MeasuredNodes(c, s, n, heat, first, rate, g.period, g.tAmbient)
                 == StretchNodes(c, s, mid, heat[1..], FrameSecs(|heat| - 1, rate), g.period, g.tAmbient)
            && MeasuredPeak(c, s, n, heat, first, rate, g.period, g.tAmbient)
                 == Max(peak, StretchPeak(c, s, mid, heat[1..], FrameSecs(|heat| - 1, rate), g.period, g.tAmbient)))
  {
    hide StretchNodes, StretchPeak;
    QuotientPositive(first, rate);
    if |heat| > 1 { QuotientPositive((|heat| - 1) as real, rate); }
  }

  method MeasureInPart(s: SpeakerState, heat: seq<real>, budget: seq<real>, first: real, rate: real, g: Globals)
    requires s.Valid() && ValidGlobals(g) && |heat| == |budget| > 0 && 0.0 < first < 1.0 && rate > 0.0
    requires forall i :: 0 <= i < |budget| ==> budget[i] >= 0.0
    modifies s
    ensures s.Valid() && MeasuredTo(s, old(s.Now()), heat, budget, first, rate, g)
  {
    hide StretchNodes, StretchPeak, MeasuredNodes, MeasuredPeak, Record, IsLoudest;
    ghost var was := s.Now();
    InPart(s.c, s.spec, s.nodes, heat, first, rate, g);
    var loudest := MeasureStretch(s, heat[..1], budget[..1], first / rate, g);
    if |heat| > 1 {
      var rest := MeasureRest(s, heat[1..], budget[1..], rate, g);
      LoudestOfBoth(loudest, Means(heat[..1], Blocks(1, g.period)), rest, Means(heat[1..], Blocks(|heat| - 1, g.period)));
      loudest := Max(loudest, rest);
    } else {
      assert Means(heat[..1], Blocks(1, g.period)) + [] == Means(heat[..1], Blocks(1, g.period));
    }
    assert s.history == MeasuredHistory(was.history, budget, first, rate, FullScale(s.spec));
    assert s.heated == was.heated + RunSecs(|heat|, first, rate) by { TimeTerms((|heat| - 1) as real, first, rate); }
    s.pRecent := loudest;
  }

  /** The run in one stretch, or its first frame for its part and then the rest. */
  method MeasureRun(s: SpeakerState, heat: seq<real>, budget: seq<real>, first: real, rate: real, g: Globals)
    requires s.Valid() && ValidGlobals(g) && |heat| == |budget| > 0 && 0.0 < first <= 1.0 && rate > 0.0
    requires forall i :: 0 <= i < |budget| ==> budget[i] >= 0.0
    modifies s
    ensures s.Valid() && MeasuredTo(s, old(s.Now()), heat, budget, first, rate, g)
  {
    hide MeasuredTo;
    if first < 1.0 {
      MeasureInPart(s, heat, budget, first, rate, g);
    } else {
      MeasureWhole(s, heat, budget, rate, g);
    }
  }

  lemma TimeTerms(n: real, first: real, rate: real)
    requires rate > 0.0
    ensures first / rate + n / rate == (n + first) / rate
    ensures 0.0 / rate == 0.0
  {
    var i := 1.0 / rate;
    assert first / rate == first * i && n / rate == n * i && (n + first) / rate == (n + first) * i;
  }

  /** The word of frame `f` on the driver's channel. */
  function WordAt(s: Spec, words: seq<int>, channels: nat, f: nat): int
    requires s.vsChan < channels && f < |words| / channels
  {
    FrameInside(f, |words| / channels, channels, s.vsChan, |words|);
    words[f * channels + s.vsChan]
  }

  /** Every frame's power in the coil, and before the card's gain. */
  function Heats(s: Spec, words: seq<int>, channels: nat): (p: seq<real>)
    requires ValidSpec(s) && s.vsChan < channels
    ensures |p| == |words| / channels
  {
    seq(|words| / channels, f requires 0 <= f < |words| / channels => Delivered(s, WordAt(s, words, channels, f)))
  }

  function Befores(c: Curves, s: Spec, words: seq<int>, channels: nat, possible: seq<Range>): (q: seq<real>)
    requires ValidSpec(s) && s.vsChan < channels
    ensures |q| == |words| / channels
  {
    seq(|words| / channels, f requires 0 <= f < |words| / channels => Before(c, s, WordAt(s, words, channels, f), possible))
  }

  /** Which frames of a reading are credited: `certain` of them certainly played, up to `shift` later;
      the newest `k` are not accounted yet, the first of those for `first` of a frame. */
  datatype Credit = Credit(certain: nat, shift: nat, k: nat, first: real)

  predicate ValidCredit(x: Credit, frames: nat) {
    0 < x.k <= x.certain && x.certain + x.shift == frames && 0.0 < x.first <= 1.0
  }

  ghost predicate MeasuredFrom(s: SpeakerState, was: Snap, words: seq<int>, possible: seq<Range>, x: Credit, rate: real,
                               g: Globals)
    requires ValidSpec(s.spec) && ValidGlobals(g) && s.spec.vsChan < g.channels && rate > 0.0
    requires ValidCredit(x, |words| / g.channels)
    reads s
  {
    MeasuredTo(s, was, MostRun(Heats(s.spec, words, g.channels), x.certain, x.k, x.shift),
               MostRun(Befores(s.c, s.spec, words, g.channels, possible), x.certain, x.k, x.shift), x.first, rate, g)
  }

  /** Where that leaves a driver. */
  ghost function FramesSnap(c: Curves, s: Spec, was: Snap, words: seq<int>, possible: seq<Range>, x: Credit, rate: real,
                            g: Globals): Snap
    requires ValidSpec(s) && ValidGlobals(g) && s.vsChan < g.channels && rate > 0.0
    requires ValidCredit(x, |words| / g.channels)
  {
    MeasuredSnap(c, s, was, MostRun(Heats(s, words, g.channels), x.certain, x.k, x.shift),
                 MostRun(Befores(c, s, words, g.channels, possible), x.certain, x.k, x.shift), x.first, rate, g)
  }

  lemma MeasuredTime(s: SpeakerState, was: Snap, words: seq<int>, possible: seq<Range>, x: Credit, rate: real, g: Globals)
    requires ValidSpec(s.spec) && ValidGlobals(g) && s.spec.vsChan < g.channels && rate > 0.0
    requires ValidCredit(x, |words| / g.channels) && MeasuredFrom(s, was, words, possible, x, rate, g)
    ensures s.heated == was.heated + RunSecs(x.k, x.first, rate)
  {
    hide MeasuredNodes, MeasuredPeak, MeasuredHistory, RunSecs;
  }

  method MeasureOne(s: SpeakerState, words: seq<int>, possible: seq<Range>, x: Credit, rate: real, g: Globals)
    requires s.Valid() && ValidGlobals(g) && s.spec.vsChan < g.channels && rate > 0.0
    requires ValidCredit(x, |words| / g.channels)
    modifies s
    ensures s.Valid() && MeasuredFrom(s, old(s.Now()), words, possible, x, rate, g) && s.Governed(g)
  {
    hide MeasuredTo, Before, Delivered, MostRun, SpeakerState.Governed;
    var p, q := FramePowers(s.c, s.spec, words, g.channels, possible);
    assert p == Heats(s.spec, words, g.channels);
    assert q == Befores(s.c, s.spec, words, g.channels, possible);
    forall f | 0 <= f < |q| ensures q[f] >= 0.0 { BeforeNonneg(s.c, s.spec, WordAt(s.spec, words, g.channels, f), possible); }
    var heat, budget := MostRun(p, x.certain, x.k, x.shift), MostRun(q, x.certain, x.k, x.shift);
    s.vSquare := Placement.Sum(heat) / x.k as real * s.spec.zNominal;
    MeasureRun(s, heat, budget, x.first, rate, g);
    GovernMeasured(s, heat, budget, x.first, rate, g);
  }

  /** The governor moves nothing a measurement left. */
  method GovernMeasured(s: SpeakerState, heat: seq<real>, budget: seq<real>, first: real, rate: real, g: Globals)
    requires s.Valid() && ValidGlobals(g) && |heat| == |budget| > 0 && 0.0 < first <= 1.0 && rate > 0.0
    modifies s
    ensures s.Valid() && s.Governed(g)
    ensures forall was | old(MeasuredTo(s, was, heat, budget, first, rate, g)) ::
      MeasuredTo(s, was, heat, budget, first, rate, g)
  {
    hide MeasuredNodes, MeasuredPeak, MeasuredHistory, SpeakerState.Governed;
    s.Govern(g);
  }

  method MeasureAll(ss: seq<SpeakerState>, c: Curves, words: seq<int>, possible: seq<Range>, x: Credit, rate: real, g: Globals)
    requires Sound(ss, c) && AllValid(ss) && ValidGlobals(g) && rate > 0.0
    requires ValidCredit(x, |words| / g.channels) && forall i :: 0 <= i < |ss| ==> ss[i].spec.vsChan < g.channels
    modifies ss
    ensures AllValid(ss) && AllGoverned(ss, g)
    ensures forall i :: 0 <= i < |ss| ==>
      MeasuredFrom(ss[i], old(ss[i].Now()), words, possible, x, rate, g)
  {
    hide MeasuredFrom, SpeakerState.Governed;
    for n := 0 to |ss|
      invariant AllValid(ss)
      invariant forall i :: 0 <= i < n ==> ss[i].tPeak.Peak? && ss[i].Governed(g)
      invariant forall i :: 0 <= i < n ==>
        MeasuredFrom(ss[i], old(ss[i].Now()), words, possible, x, rate, g)
      invariant forall i :: n <= i < |ss| ==> ss[i].Now() == old(ss[i].Now())
    {
      MeasureOne(ss[n], words, possible, x, rate, g);
    }
  }

  // ---- what the whole card needs ----------------------------------------------------------------------

  /** The largest reduction any driver asks for. */
  method MostReduction(ss: seq<SpeakerState>) returns (db: real)
    requires AllValid(ss)
    ensures db >= 0.0 && forall i :: 0 <= i < |ss| ==> ss[i].reductionDb <= db
    ensures db == 0.0 || exists i :: 0 <= i < |ss| && db == ss[i].reductionDb
  {
    db := 0.0;
    for i := 0 to |ss|
      invariant db >= 0.0 && forall k :: 0 <= k < i ==> ss[k].reductionDb <= db
      invariant db == 0.0 || exists k :: 0 <= k < i && db == ss[k].reductionDb
    {
      if ss[i].reductionDb > db { db := ss[i].reductionDb; }
    }
  }

  method AnyHard(ss: seq<SpeakerState>) returns (hard: bool)
    ensures hard <==> exists i :: 0 <= i < |ss| && ss[i].hard
  {
    hard := false;
    for i := 0 to |ss|
      invariant hard <==> exists k :: 0 <= k < i && ss[k].hard
    {
      if ss[i].hard { hard := true; }
    }
  }

  /** Under the working ceiling, bound and all. */
  ghost predicate IsCool(s: SpeakerState)
    requires s.tPeak.Peak?
    reads s
  {
    s.Hottest() < s.spec.tLimit - s.spec.tHeadroom
  }

  /** A driver's fault cleared exactly if it is, and nothing else moved. */
  twostate predicate Cleared(s: SpeakerState)
    requires s.tPeak.Peak?
    reads s
  {
    && s.Now() == old(s.Now()).(hard := s.hard) && s.reductionDb == old(s.reductionDb)
    && s.tPeak == old(s.tPeak) && s.thermalDb == old(s.thermalDb) && s.reducing == old(s.reducing)
    && (s.hard <==> old(s.hard) && !IsCool(s))
  }

  /** A cleared fault takes effect from the next pass. */
  method ClearAll(ss: seq<SpeakerState>)
    requires AllValid(ss) && forall i, j :: 0 <= i < j < |ss| ==> ss[i] != ss[j]
    modifies ss
    ensures AllValid(ss)
    ensures forall i :: 0 <= i < |ss| ==> Cleared(ss[i])
  {
    for n := 0 to |ss|
      invariant AllValid(ss)
      invariant forall i :: 0 <= i < n ==> Cleared(ss[i])
      invariant forall i :: n <= i < |ss| ==> unchanged(ss[i])
    {
      var cleared := ss[n].ClearHardIfCool();
    }
  }

  method SilenceOne(s: SpeakerState, ghost g: Globals)
    requires s.Valid() && g.tWindow > 0.0 && s.Governed(g)
    modifies s`pRecent
    ensures s.Valid() && s.Governed(g) && s.pRecent == 0.0
  {
    hide Energy, ThermalDb;
    s.pRecent := 0.0;
  }

  method Silence(ss: seq<SpeakerState>, ghost g: Globals)
    requires AllValid(ss) && g.tWindow > 0.0 && AllGoverned(ss, g)
    modifies ss
    ensures AllValid(ss) && AllGoverned(ss, g)
    ensures forall i :: 0 <= i < |ss| ==> ss[i].Now() == old(ss[i].Now()) && ss[i].reductionDb == old(ss[i].reductionDb)
    ensures forall i :: 0 <= i < |ss| ==> ss[i].pRecent == 0.0
  {
    hide SpeakerState.Governed;
    for n := 0 to |ss|
      invariant AllValid(ss) && AllGoverned(ss, g)
      invariant forall i :: 0 <= i < |ss| ==> ss[i].Now() == old(ss[i].Now()) && ss[i].reductionDb == old(ss[i].reductionDb)
      invariant forall i :: 0 <= i < n ==> ss[i].pRecent == 0.0
    {
      SilenceOne(ss[n], g);
    }
  }
}
