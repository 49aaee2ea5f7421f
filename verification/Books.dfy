/** The account as it is kept (src/guard.rs, `charge`, `cool` and `measure_shifted`): what every stretch of time
    was booked as, what that did to a driver, and what it promises of what was really played. */
module Books {
  import opened Config
  import opened Curves
  import opened Reals
  import opened Thermal
  import opened Budget
  import opened Signals
  import opened GainLog
  import opened Speaker
  import Bank
  import Domination
  import Inversion
  import Measured
  import PartCredit
  import Placement

  /** How a stretch of the account was covered: charged as a full-scale signal through `least`, known to be
      silent, or measured from `words`, inverted through `log`, the last of which played up to `to` or up to
      `late` frames later. Cleared faults and the time two clock readings left open are booked beside it. */
  datatype Booking =
    | Charging(from: real, to: real, least: real)
    | Cooling(from: real, to: real)
    | Measuring(from: real, to: real, late: nat, rate: nat, words: seq<int>, log: seq<Gain>, floor: real)
    | Clearing(hard: seq<bool>)
    | Pairing(secs: real)

  // ---- measured frames ------------------------------------------------------------------------------

  function Frames(g: Globals, words: seq<int>): nat {
    if g.channels > 0 then |words| / g.channels else 0
  }

  /** The frames that certainly played last so long. */
  function Certain(rate: nat, frames: nat, late: nat): real
    requires rate > 0
  {
    (frames - late) as real / rate as real
  }

  lemma CertainTakesTime(rate: nat, frames: nat, late: nat)
    requires rate > 0 && late < frames
    ensures Certain(rate, frames, late) > 0.0
  {
    QuotientPositive((frames - late) as real, rate as real);
  }

  /** Up to when frames known to end by `end`, and up to `late` of them later, may have played. */
  function LateEnd(rate: nat, end: real, late: nat): real
    requires rate > 0
  {
    end + late as real / rate as real
  }

  /** How much of frames whose last one played up to `end`, and up to `shift` of them later, an account up to
      `account` has not reached. */
  function CreditFor(rate: nat, account: real, end: real, frames: nat, shift: nat): Bank.Credit
    requires rate > 0 && shift < frames
  {
    var certain := frames - shift;
    var unseen := Min((end - account) * rate as real, certain as real);
    var up := Placement.Ceil(unseen);
    var k: nat := if up < 1 then 1 else if up > certain then certain else up;
    Bank.Credit(certain, shift, k, Max(Min(unseen - (k - 1) as real, 1.0), 0.0))
  }

  /** The credit covers exactly the time not yet accounted. */
  lemma CreditIsExact(rate: nat, account: real, end: real, frames: nat, shift: nat)
    requires rate > 0 && shift < frames && account < end && end - account <= Certain(rate, frames, shift)
    ensures var x := CreditFor(rate, account, end, frames, shift);
      Bank.ValidCredit(x, frames) && Bank.RunSecs(x.k, x.first, rate as real) == end - account
  {
    var certain, d, r := frames - shift, end - account, rate as real;
    DivideTimes(certain as real, r);
    ScaleOrder(r, d, certain as real / r);
    Positive(d, r);
    var x := CreditFor(rate, account, end, frames, shift);
    CreditTerms(d, r, x.k as real, x.first);
  }

  lemma CreditTerms(d: real, r: real, k: real, first: real)
    requires r > 0.0 && k - 1.0 + first == d * r
    ensures (k - 1.0 + first) / r == d
  {
    DivideTimes(d * r, r);
    Cancel(r, d * r / r, d);
  }

  /** With none of them accounted, the frames' credit is all that certainly played, whole. */
  lemma WholeCredit(rate: nat, account: real, end: real, frames: nat, late: nat)
    requires rate > 0 && late < frames && account <= end - Certain(rate, frames, late)
    ensures CreditFor(rate, Max(account, end - Certain(rate, frames, late)), end, frames, late)
         == Bank.Credit(frames - late, late, frames - late, 1.0)
  {
    DivideTimes((frames - late) as real, rate as real);
    assert (-((frames - late) as real)).Floor == -(frames - late);
  }

  /** The reductions the newest `k` frames up to `end`, and up to `late` of them later, may have been converted
      at: up to QUEUE_BOUND before they played. */
  function PossibleIn(g: Globals, floor: real, rate: nat, log: seq<Gain>, end: real, k: nat, late: nat): seq<Inversion.Range>
    requires rate > 0
  {
    var from := end - k as real / rate as real - QUEUE_BOUND;
    PossibleReductions(log, g.safeReduction, floor, from, LateEnd(rate, end, late))
  }

  /** Frames that can have played after the lease's end are allowed the card's own level in the log. */
  function Marked(log: seq<Gain>, lapse: real, lateEnd: real): seq<Gain> {
    if lateEnd > lapse then MarkKernel(log, lapse) else log
  }

  // ---- what a booking does to a driver ------------------------------------------------------------------

  /** After `d` seconds charged as a full-scale signal through `least`. */
  ghost function ChargedSnap(c: Curves, s: Spec, g: Globals, was: Snap, least: real, d: real): Snap
    requires ValidSpec(s)
  {
    if d > 0.0 then Bank.StepSnap(c, s, was, WorstCase(c, s, least), Inversion.FullScale(s), d, g.tAmbient) else was
  }

  ghost function CooledSnap(c: Curves, s: Spec, g: Globals, was: Snap, d: real): Snap
    requires ValidSpec(s)
  {
    if d > 0.0 then Bank.StepSnap(c, s, was, 0.0, 0.0, d, g.tAmbient) else was
  }

  ghost predicate Usable(s: Spec, g: Globals) {
    ValidSpec(s) && ValidGlobals(g) && s.vsChan < g.channels
  }

  /** Measured frames that count at all. */
  predicate Counts(g: Globals, x: Booking)
    requires x.Measuring?
  {
    && x.rate > 0 && x.late < Frames(g, x.words)
    && Bank.ValidCredit(CreditFor(x.rate, x.from, x.to, Frames(g, x.words), x.late), Frames(g, x.words))
  }

  /** A booking as the account makes them: it takes time, and what is measured is no longer than the frames that
      certainly played. */
  predicate Formed(g: Globals, x: Booking) {
    match x
    case Charging(from, to, _) => from < to
    case Cooling(from, to) => from < to
    case Measuring(from, to, _, _, _, log, _) =>
      Counts(g, x) && log != [] && from < to && to - from <= Certain(x.rate, Frames(g, x.words), x.late)
    case Clearing(_) => true
    case Pairing(secs) => secs > 0.0
  }

  lemma MeasuringIsFormed(g: Globals, x: Booking)
    requires x.Measuring? && x.rate > 0 && x.late < Frames(g, x.words) && x.log != []
    requires x.from < x.to && x.to - x.from <= Certain(x.rate, Frames(g, x.words), x.late)
    ensures Formed(g, x)
  {
    hide Certain, CreditFor, Frames;
    CreditIsExact(x.rate, x.from, x.to, Frames(g, x.words), x.late);
  }

  ghost function MeasuredSnap(c: Curves, s: Spec, g: Globals, was: Snap, x: Booking): Snap
    requires Usable(s, g) && x.Measuring? && Counts(g, x)
  {
    var y := CreditFor(x.rate, x.from, x.to, Frames(g, x.words), x.late);
    Bank.FramesSnap(c, s, was, x.words, PossibleIn(g, x.floor, x.rate, x.log, x.to, y.k, x.late), y, x.rate as real, g)
  }

  /** Driver `i`, that was at `was`. */
  ghost function Booked(c: Curves, s: Spec, g: Globals, i: nat, was: Snap, x: Booking): Snap
    requires Usable(s, g)
  {
    match x
    case Charging(from, to, least) => ChargedSnap(c, s, g, was, least, to - from)
    case Cooling(from, to) => CooledSnap(c, s, g, was, to - from)
    case Measuring(_, _, _, _, _, _, _) => if Counts(g, x) then MeasuredSnap(c, s, g, was, x) else was
    case Clearing(hard) => was.(hard := was.hard && i < |hard| && hard[i])
    case Pairing(secs) =>
      if secs > 0.0 then Bank.StepSnap(c, s, was, Inversion.FullScale(s), Inversion.FullScale(s), secs, g.tAmbient) else was
  }

  ghost function AllBooked(c: Curves, s: Spec, g: Globals, i: nat, was: Snap, xs: seq<Booking>): Snap
    requires Usable(s, g)
  {
    if xs == [] then was
    else Booked(c, s, g, i, AllBooked(c, s, g, i, was, xs[..|xs| - 1]), xs[|xs| - 1])
  }

  lemma {:induction false} BookedRuns(c: Curves, s: Spec, g: Globals, i: nat, was: Snap, xs: seq<Booking>, ys: seq<Booking>)
    requires Usable(s, g)
    ensures AllBooked(c, s, g, i, was, xs + ys) == AllBooked(c, s, g, i, AllBooked(c, s, g, i, was, xs), ys)
  {
    hide Booked;
    if ys == [] {
      assert xs + ys == xs;
    } else {
      var l := |ys| - 1;
      BookedRuns(c, s, g, i, was, xs, ys[..l]);
      assert (xs + ys)[..|xs + ys| - 1] == xs + ys[..l];
    }
  }

  /** The stretches follow each other from `from` to `to`. */
  ghost predicate Chain(xs: seq<Booking>, from: real, to: real) {
    if xs == [] then from == to
    else
      var x, front := xs[|xs| - 1], xs[..|xs| - 1];
      if x.Clearing? || x.Pairing? then Chain(front, from, to) else x.from < x.to == to && Chain(front, from, x.from)
  }

  lemma ChainOne(xs: seq<Booking>, x: Booking, from: real, mid: real)
    requires Chain(xs, from, mid)
    ensures x.Clearing? || x.Pairing? ==> Chain(xs + [x], from, mid)
    ensures !x.Clearing? && !x.Pairing? && x.from == mid < x.to ==> Chain(xs + [x], from, x.to)
  {
    assert (xs + [x])[..|xs|] == xs;
  }

  // ---- the page: the account and the log as the bookings leave them --------------------------------------

  datatype Page = Page(account: real, boundary: real, log: seq<Gain>, booked: seq<Booking>)

  /** What measuring reads besides: the rate, the lease's end, the least an unknown value can have applied, and the
      controls' value. */
  datatype View = View(rate: nat, lapse: real, floor: real, written: Held)

  function ChargeOf(from: real, to: real, least: real): seq<Booking> {
    if to > from then [Charging(from, to, least)] else []
  }

  function LeastOn(p: Page, written: Held): real {
    LeastSince(p.log, written, p.boundary)
  }

  /** Charged up to `to`. */
  function AfterCharge(p: Page, written: Held, to: real): Page {
    p.(account := Max(p.account, to), booked := p.booked + ChargeOf(p.account, to, LeastOn(p, written)))
  }

  /** A verified boundary. */
  function AfterBound(p: Page, at: real): Page {
    p.(boundary := at, log := Prune(p.log, at - (QUEUE_BOUND + GAIN_RETAIN)))
  }

  /** Known to be silent up to `to`. */
  function AfterCool(p: Page, to: real): Page {
    AfterBound(p.(account := Max(p.account, to),
               booked := p.booked + if to > p.account then [Cooling(p.account, to)] else []), to)
  }

  /** Frames that ended by `end`, or up to `late` of them later: charged up to those that certainly played, and
      measured from there on. */
  function AfterFrames(g: Globals, v: View, p: Page, end: real, words: seq<int>, late: nat): Page
    requires v.rate > 0
  {
    var before := AfterCharge(p, v.written, end - Certain(v.rate, Frames(g, words), late));
    var log := Marked(p.log, v.lapse, LateEnd(v.rate, end, late));
    var x := Measuring(before.account, end, late, v.rate, words, log, v.floor);
    AfterBound(Page(end, p.boundary, log, before.booked + [x]), end)
  }

  /** Of the doubt about their end, what leaves at least one frame that certainly played. */
  function LateOf(frames: nat, shift: nat): (late: nat)
    requires frames > 0
    ensures late < frames && late <= shift
  {
    if shift < frames - 1 then shift else frames - 1
  }

  /** The same, if there is anything to measure. */
  function AfterShifted(g: Globals, v: View, p: Page, end: real, words: seq<int>, shift: nat): Page {
    var frames := Frames(g, words);
    if frames == 0 || v.rate == 0 || end <= p.account then p
    else AfterFrames(g, v, p, end, words, LateOf(frames, shift))
  }

  /** Frames whose position, `queued` frames of backlog, was read between the two clock reads. */
  datatype Take = Take(before: real, after: real, queued: nat, words: seq<int>)

  function AfterTake(g: Globals, v: View, p: Page, t: Take): Page {
    var r := if v.rate > 0 then v.rate as real else 1.0;
    var at := Placement.Place(t.before, t.after, t.queued, r);
    AfterShifted(g, v, p, at.early, t.words, at.shift)
  }

  function AfterTakes(g: Globals, v: View, p: Page, ts: seq<Take>): Page {
    if ts == [] then p else AfterTake(g, v, AfterTakes(g, v, p, ts[..|ts| - 1]), ts[|ts| - 1])
  }

  /** What a pass read, on the page so far and with what else a measurement looks at. */
  datatype Read = NoRead | Read(v: View, p: Page, take: Take)

  function AfterRead(g: Globals, x: Read): Page
    requires x.Read?
  {
    AfterTake(g, x.v, x.p, x.take)
  }

  /** What is booked stays, and nothing is taken for silent. */
  lemma {:induction false} TakesKeep(g: Globals, v: View, p: Page, ts: seq<Take>)
    ensures p.booked <= AfterTakes(g, v, p, ts).booked && p.account <= AfterTakes(g, v, p, ts).account
    ensures forall j :: |p.booked| <= j < |AfterTakes(g, v, p, ts).booked| ==> !AfterTakes(g, v, p, ts).booked[j].Cooling?
  {
    hide Certain, Placement.Place, Marked, Prune, LeastOn;
    if ts != [] { TakesKeep(g, v, p, ts[..|ts| - 1]); }
  }

  // ---- what was really played -----------------------------------------------------------------------------

  /** A word a source at `a` of full scale was converted to at `t`, at a reduction the card may have applied then
      and by a gain table off by up to `eps`. */
  ghost predicate ConvertedSo(c: Curves, g: Globals, floor: real, w: int, log: seq<Gain>, t: real, a: real, r: real, h: real,
                              eps: real)
    requires log != []
  {
    && MayApply(HeldAt(log, t), g.safeReduction, floor, r)
    && 0.0 <= eps <= Inversion.ROOM_EPS_DB && 0.0 <= a <= 1.0 && c.gain(r + eps) <= h <= c.gain(r - eps)
    && Inversion.Abs(w) as real <= a * h * Inversion.FULL_WORD <= (Inversion.Abs(w) + 1) as real
  }

  /** The source's power before the gain, less the table's rounding twice over: exactly that for an exact table. */
  function SourceLess(c: Curves, s: Spec, a: real, eps: real): real
    requires s.zNominal > 0.0
  {
    Inversion.Source(s, a * c.gain(2.0 * eps))
  }

  lemma IsInverted(c: Curves, s: Spec, g: Globals, floor: real, w: int, log: seq<Gain>, from: real, to: real, t: real, a: real,
                   r: real, h: real, eps: real)
    requires Lawful(c) && ValidSpec(s) && log != [] && from <= t <= to && ConvertedSo(c, g, floor, w, log, t, a, r, h, eps)
    ensures SourceLess(c, s, a, eps)
         <= Inversion.Before(c, s, w, PossibleReductions(log, g.safeReduction, floor, from, to))
  {
    hide Lawful, PossibleReductions, Inversion.Before, HeldAt, MayApply;
    LoggedFrameIsSound(c, s, log, g.safeReduction, floor, from, to, t, w, a, r, h, eps);
  }

  /** It came from a source of at least `watts`. */
  ghost predicate CameFrom(c: Curves, s: Spec, g: Globals, floor: real, w: int, watts: real, log: seq<Gain>, from: real, to: real)
    requires log != [] && ValidSpec(s)
  {
    exists t, a, r, h, eps :: from <= t <= to && ConvertedSo(c, g, floor, w, log, t, a, r, h, eps)
      && 0.0 <= watts <= SourceLess(c, s, a, eps)
  }

  lemma IsUnderBefore(c: Curves, s: Spec, g: Globals, floor: real, w: int, watts: real, log: seq<Gain>, from: real, to: real)
    requires Lawful(c) && ValidSpec(s) && log != [] && CameFrom(c, s, g, floor, w, watts, log, from, to)
    ensures 0.0 <= watts <= Inversion.Before(c, s, w, PossibleReductions(log, g.safeReduction, floor, from, to))
  {
    var t, a, r, h, eps :| from <= t <= to && ConvertedSo(c, g, floor, w, log, t, a, r, h, eps)
      && 0.0 <= watts <= SourceLess(c, s, a, eps);
    hide SourceLess, ConvertedSo, Lawful;
    IsInverted(c, s, g, floor, w, log, from, to, t, a, r, h, eps);
  }

  /** Frame `f` of `n` played from `from` to `to`, if in part, the last of them ending at `end`. */
  ghost predicate InSpan(f: nat, n: nat, rate: nat, from: real, to: real, end: real) {
    Placement.Overlap(f, Placement.Position(n, end, rate as real, from), Placement.Position(n, end, rate as real, to)) > 0.0
  }

  /** The frames that played in the stretch, if the last of them ended at `end`, each came from a source of at
      least its power. */
  ghost predicate Sources(c: Curves, s: Spec, g: Globals, x: Booking, src: seq<real>, end: real)
    requires Usable(s, g) && x.Measuring? && Counts(g, x) && x.log != []
  {
    var n := Frames(g, x.words);
    var k := CreditFor(x.rate, x.from, x.to, n, x.late).k;
    && |src| == n
    && forall f :: 0 <= f < n && InSpan(f, n, x.rate, x.from, x.to, end) ==>
         CameFrom(c, s, g, x.floor, Bank.WordAt(s, x.words, g.channels, f), src[f], x.log,
                  x.to - k as real / x.rate as real - QUEUE_BOUND, LateEnd(x.rate, x.to, x.late))
  }

  /** Frames the credit is enough for: the first of those not yet accounted counts whole, their end is known, or
      there is but one. */
  predicate Enough(g: Globals, x: Booking)
    requires x.Measuring? && Counts(g, x)
  {
    var y := CreditFor(x.rate, x.from, x.to, Frames(g, x.words), x.late);
    y.first == 1.0 || y.shift == 0 || y.k == 1
  }

  /** What a measured stretch played: its frames' sources, wherever in the doubt about it they ended. */
  ghost predicate PlayedAs(c: Curves, s: Spec, g: Globals, x: Booking, ps: seq<Entry>, src: seq<real>, end: real)
    requires Usable(s, g) && x.Measuring? && Formed(g, x)
  {
    && Enough(g, x) && x.to <= end <= LateEnd(x.rate, x.to, x.late) && Sources(c, s, g, x, src, end)
    && ps == Measured.TrulyPlayed(src, x.rate as real, x.from, x.to, end)
  }

  /** What can really have been played before the gain in a stretch booked so: while charged anything within full
      scale, while closed nothing, and of measured frames what their words came from. */
  ghost predicate Plays(c: Curves, s: Spec, g: Globals, x: Booking, ps: seq<Entry>)
    requires Usable(s, g) && Formed(g, x)
  {
    match x
    case Charging(from, to, _) => Proper(ps) && Within(ps, Inversion.FullScale(s)) && Total(ps) == to - from
    case Cooling(from, to) => Proper(ps) && Within(ps, 0.0) && Total(ps) == to - from
    case Measuring(_, _, _, _, _, _, _) => exists src, end :: PlayedAs(c, s, g, x, ps, src, end)
    case Clearing(_) => ps == []
    case Pairing(secs) => Proper(ps) && Within(ps, Inversion.FullScale(s)) && Total(ps) == secs
  }

  lemma FullIsPositive(c: Curves, s: Spec)
    requires Lawful(c) && ValidSpec(s)
    ensures Inversion.FullScale(s) > 0.0
  {
    WorstCaseFull(c, s);
  }

  lemma BeforesAre(c: Curves, s: Spec, g: Globals, words: seq<int>, possible: seq<Inversion.Range>)
    requires Lawful(c) && Usable(s, g)
    ensures var q := Bank.Befores(c, s, words, g.channels, possible);
      Measured.AtMostFull(q, Inversion.FullScale(s)) && PartCredit.Powers(q)
  {
    hide Lawful, Inversion.Undone, Inversion.FullScale;
    var q := Bank.Befores(c, s, words, g.channels, possible);
    forall f | 0 <= f < |q| ensures q[f] >= 0.0 {
      Bank.BeforeNonneg(c, s, Bank.WordAt(s, words, g.channels, f), possible);
    }
  }

  lemma SourcesAreUnder(c: Curves, s: Spec, g: Globals, x: Booking, src: seq<real>, end: real)
    requires Lawful(c) && Usable(s, g) && x.Measuring? && Counts(g, x) && x.log != [] && Sources(c, s, g, x, src, end)
    ensures var k := CreditFor(x.rate, x.from, x.to, Frames(g, x.words), x.late).k;
      Measured.UnderInSpan(src, Bank.Befores(c, s, x.words, g.channels,
                                             PossibleIn(g, x.floor, x.rate, x.log, x.to, k, x.late)),
                           x.rate as real, x.from, x.to, end)
  {
    hide Lawful, PossibleReductions, Inversion.Before, CameFrom, Placement.Overlap, CreditFor;
    var n := Frames(g, x.words);
    var k := CreditFor(x.rate, x.from, x.to, n, x.late).k;
    forall f | 0 <= f < n && InSpan(f, n, x.rate, x.from, x.to, end)
      ensures 0.0 <= src[f]
           <= Bank.Befores(c, s, x.words, g.channels, PossibleIn(g, x.floor, x.rate, x.log, x.to, k, x.late))[f]
    {
      IsUnderBefore(c, s, g, x.floor, Bank.WordAt(s, x.words, g.channels, f), src[f], x.log,
                    x.to - k as real / x.rate as real - QUEUE_BOUND, LateEnd(x.rate, x.to, x.late));
    }
  }

  /** Frames none of which was accounted are always credited enough. */
  lemma WholeIsEnough(g: Globals, x: Booking)
    requires x.Measuring? && Counts(g, x) && x.from == x.to - Certain(x.rate, Frames(g, x.words), x.late)
    ensures Enough(g, x)
  {
    WholeCredit(x.rate, x.from, x.to, Frames(g, x.words), x.late);
  }

  /** Budgets that held what was played hold it after measured frames. */
  lemma MeasuredStaysOver(c: Curves, s: Spec, g: Globals, was: Snap, x: Booking, past: seq<Entry>, ps: seq<Entry>,
                          src: seq<real>, end: real)
    requires Lawful(c) && Usable(s, g) && x.Measuring? && Formed(g, x) && PlayedAs(c, s, g, x, ps, src, end)
    requires Domination.Holds(was.history, past, Inversion.FullScale(s))
    ensures Domination.Holds(MeasuredSnap(c, s, g, was, x).history, past + ps, Inversion.FullScale(s))
  {
    var n, full := Frames(g, x.words), Inversion.FullScale(s);
    var y := CreditFor(x.rate, x.from, x.to, n, x.late);
    CreditIsExact(x.rate, x.from, x.to, n, x.late);
    SourcesAreUnder(c, s, g, x, src, end);
    hide CreditFor, Lawful, Inversion.FullScale, Sources, Certain, Truth, Energy, Record, Bank.MeasuredNodes, Bank.MeasuredPeak,
         Bank.MostRun, Measured.TrulyPlayed, PossibleIn, Inversion.Before, Measured.UnderInSpan;
    var possible := PossibleIn(g, x.floor, x.rate, x.log, x.to, y.k, x.late);
    var q := Bank.Befores(c, s, x.words, g.channels, possible);
    FullIsPositive(c, s);
    BeforesAre(c, s, g, x.words, possible);
    Measured.MeasuredStaysProper(was.history, past, src, q, y.certain, y.k, y.first, y.shift, x.rate as real, x.from, x.to, end,
                                 full);
    forall w | 0.0 <= w <= MINUTE
      ensures Truth(past + ps, w) <= Energy(MeasuredSnap(c, s, g, was, x).history, w, full)
    {
      Measured.MeasuredStaysOver(was.history, past, src, q, y.certain, y.k, y.first, y.shift, x.rate as real, x.from, x.to, end,
                                 w, full);
    }
  }

  /** And after whatever a stretch was booked as. */
  lemma BookingStaysOver(c: Curves, s: Spec, g: Globals, i: nat, was: Snap, x: Booking, past: seq<Entry>, ps: seq<Entry>)
    requires Lawful(c) && Usable(s, g) && Formed(g, x) && Plays(c, s, g, x, ps)
    requires Domination.Holds(was.history, past, Inversion.FullScale(s))
    ensures Domination.Holds(Booked(c, s, g, i, was, x).history, past + ps, Inversion.FullScale(s))
  {
    hide PlayedAs, Domination.Holds, MeasuredSnap, Inversion.FullScale, Lawful, Record, HeatNodes, HeatPeak, WorstCase;
    var full := Inversion.FullScale(s);
    FullIsPositive(c, s);
    match x
    case Measuring(_, _, _, _, _, _, _) =>
      var src, end :| PlayedAs(c, s, g, x, ps, src, end);
      MeasuredStaysOver(c, s, g, was, x, past, ps, src, end);
    case Clearing(_) =>
      assert past + ps == past;
    case Cooling(from, to) =>
      SilenceRecorded(ps, full);
      Domination.StepStaysOver(was.history, past, Entry(to - from, 0.0), ps, full);
    case Charging(from, to, _) =>
      FullRecorded(ps, full);
      Domination.StepStaysOver(was.history, past, Entry(to - from, full), ps, full);
    case Pairing(secs) =>
      FullRecorded(ps, full);
      Domination.StepStaysOver(was.history, past, Entry(secs, full), ps, full);
  }

  lemma FullRecorded(ps: seq<Entry>, full: real)
    requires Proper(ps) && Within(ps, full) && full > 0.0 && Total(ps) > 0.0
    ensures Recorded(Entry(Total(ps), full), ps, full)
  {
    SumWithin(ps, full);
  }

  lemma SilenceRecorded(ps: seq<Entry>, full: real)
    requires Proper(ps) && Within(ps, 0.0) && full > 0.0 && Total(ps) > 0.0
    ensures Recorded(Entry(Total(ps), 0.0), ps, full)
  {
    SumWithin(ps, 0.0);
  }

  /** Over any run of bookings: budgets that held what was played before it hold, in every window of up to a
      minute, what was played before and during it. */
  lemma {:induction false} RunStaysOver(c: Curves, s: Spec, g: Globals, i: nat, was: Snap, xs: seq<Booking>, past: seq<Entry>,
                                        plays: seq<seq<Entry>>)
    requires Lawful(c) && Usable(s, g) && |plays| == |xs|
    requires forall j :: 0 <= j < |xs| ==> Formed(g, xs[j]) && Plays(c, s, g, xs[j], plays[j])
    requires Domination.Holds(was.history, past, Inversion.FullScale(s))
    ensures Domination.Holds(AllBooked(c, s, g, i, was, xs).history, past + Flatten(plays), Inversion.FullScale(s))
  {
    hide Lawful, Plays, Domination.Holds, Booked, Usable, Formed, Inversion.FullScale;
    if xs == [] {
      assert past + Flatten(plays) == past;
    } else {
      var l := |xs| - 1;
      RunStaysOver(c, s, g, i, was, xs[..l], past, plays[..l]);
      BookingStaysOver(c, s, g, i, AllBooked(c, s, g, i, was, xs[..l]), xs[l], past + Flatten(plays[..l]), plays[l]);
      assert past + Flatten(plays) == past + Flatten(plays[..l]) + plays[l];
    }
  }
}
