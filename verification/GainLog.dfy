/** The history of the card's gain (src/guard.rs, `note_written` to `possible_reductions`): what
    the volume controls may have held, when, and what the card may have converted a frame at. */
module GainLog {
  import opened Config
  import opened Curves
  import opened Reals
  import opened Inversion

  /** How long a frame can play after it was converted. */
  const QUEUE_BOUND := 0.5
  const GAIN_RETAIN := 1.0
  /** The reduction the controls' minimum stands for (dB). */
  const MUTE_DB := 120.0
  /** The far end of a look at the log (s). */
  const FAR := 1048576.0

  /** What the controls hold: unknown, or anything between `lo` and `hi`. */
  datatype Held = Unknown | Held(lo: real, hi: real)

  /** Held from `at` on; with `kernel` the card's own safe level may have applied instead. */
  datatype Gain = Gain(at: real, held: Held, kernel: bool)

  /** The least reduction, unknown taken as full gain. */
  function Least(h: Held): real {
    if h.Unknown? then 0.0 else h.lo
  }

  ghost predicate Ordered(gs: seq<Gain>) {
    forall i, j :: 0 <= i < j < |gs| ==> gs[i].at <= gs[j].at
  }

  /** In order but for `d`: a mark can be that far ahead of the entries noted after it. */
  ghost predicate Nearly(gs: seq<Gain>, d: real) {
    forall i, j :: 0 <= i < j < |gs| ==> gs[i].at <= gs[j].at + d
  }

  /** An entry ahead of the clock is a mark, and says nothing new of the controls: the one before it held
      the same. */
  ghost predicate Copies(gs: seq<Gain>, clock: real) {
    forall i :: 0 <= i < |gs| && gs[i].at > clock ==> gs[i].kernel && i > 0 && gs[i - 1].held == gs[i].held
  }

  /** The last entry at or before `t`, or -1. */
  function LastBy(gs: seq<Gain>, t: real): (i: int)
    ensures -1 <= i < |gs|
    ensures i >= 0 ==> gs[i].at <= t
    ensures forall k :: i < k < |gs| ==> gs[k].at > t
  {
    if gs == [] then -1
    else if gs[|gs| - 1].at <= t then |gs| - 1
    else LastBy(gs[..|gs| - 1], t)
  }

  // ---- the operations --------------------------------------------------------------------------

  function Note(gs: seq<Gain>, g: Gain): seq<Gain> {
    if gs != [] && gs[|gs| - 1].held == g.held && gs[|gs| - 1].kernel == g.kernel then gs else gs + [g]
  }

  function Flagged(g: Gain, from: real): Gain {
    if g.at >= from then g.(kernel := true) else g
  }

  predicate Inserted(s: seq<Gain>, gs: seq<Gain>, i: nat, g: Gain) {
    && i < |gs| && |s| == |gs| + 1 && s[i + 1] == g
    && (forall n :: 0 <= n <= i ==> s[n] == gs[n])
    && (forall n :: i + 1 < n < |s| ==> s[n] == gs[n - 1])
  }

  function InsertAfter(gs: seq<Gain>, i: nat, g: Gain): (s: seq<Gain>)
    requires i < |gs|
    ensures Inserted(s, gs, i, g)
  {
    gs[..i + 1] + [g] + gs[i + 1..]
  }

  /** The entry that holds at `from` is split there, unless it is flagged already. */
  function Split(gs: seq<Gain>, from: real): seq<Gain> {
    var i := LastBy(gs, from);
    if i >= 0 && !gs[i].kernel && gs[i].at < from then InsertAfter(gs, i, Gain(from, gs[i].held, true)) else gs
  }

  function MarkKernel(gs: seq<Gain>, from: real): (r: seq<Gain>)
    ensures |r| == |Split(gs, from)|
    ensures forall k :: 0 <= k < |r| ==> r[k] == Flagged(Split(gs, from)[k], from)
  {
    seq(|Split(gs, from)|, k requires 0 <= k < |Split(gs, from)| => Flagged(Split(gs, from)[k], from))
  }

  /** Only what held at `from` or later. */
  function Prune(gs: seq<Gain>, from: real): seq<Gain> {
    var i := LastBy(gs, from);
    if i >= 0 then gs[i..] else gs
  }

  /** An entry and when it stopped holding. */
  datatype Span = Span(gain: Gain, end: real)

  predicate Overlaps(gs: seq<Gain>, from: real, to: real, i: nat)
    requires i < |gs|
  {
    && (i + 1 < |gs| ==> gs[i + 1].at > from)
    && (gs[i].at <= to || i == 0)
  }

  function SpanAt(gs: seq<Gain>, to: real, i: nat): Span
    requires i < |gs|
  {
    Span(gs[i], if i + 1 < |gs| then Min(gs[i + 1].at, to) else to)
  }

  function SpansBelow(gs: seq<Gain>, from: real, to: real, n: nat): seq<Span>
    requires n <= |gs|
  {
    if n == 0 then []
    else SpansBelow(gs, from, to, n - 1) + if Overlaps(gs, from, to, n - 1) then [SpanAt(gs, to, n - 1)] else []
  }

  function HeldSpans(gs: seq<Gain>, from: real, to: real): seq<Span> {
    SpansBelow(gs, from, to, |gs|)
  }

  function LeastOf(spans: seq<Span>, start: real): real {
    if spans == [] then start
    else Min(LeastOf(spans[..|spans| - 1], start), Least(spans[|spans| - 1].gain.held))
  }

  /** The least reduction the card may have applied to what plays after `from`. */
  function LeastSince(gs: seq<Gain>, written: Held, from: real): real {
    LeastOf(HeldSpans(gs, from - QUEUE_BOUND, from - QUEUE_BOUND + FAR), Least(written))
  }

  /** What one entry may have converted a frame at. */
  function RangesOf(g: Gain, safe: real, unknownFloor: real): seq<Range> {
    if g.held.Unknown? then [Range(unknownFloor, MUTE_DB)]
    else if g.kernel && safe > g.held.lo then [Range(g.held.lo, g.held.hi), Range(safe, Max(safe, g.held.hi))]
    else [Range(g.held.lo, g.held.hi)]
  }

  function RangesOver(spans: seq<Span>, safe: real, unknownFloor: real): seq<Range> {
    if spans == [] then []
    else RangesOver(spans[..|spans| - 1], safe, unknownFloor) + RangesOf(spans[|spans| - 1].gain, safe, unknownFloor)
  }

  function PossibleReductions(gs: seq<Gain>, safe: real, unknownFloor: real, from: real, to: real): seq<Range> {
    RangesOver(HeldSpans(gs, from, to), safe, unknownFloor)
  }

  // ---- the log as an interval map --------------------------------------------------------------

  /** The entry in force at `t`; the oldest stands for the time before it. */
  function HeldAt(gs: seq<Gain>, t: real): Gain
    requires gs != []
  {
    gs[if LastBy(gs, t) >= 0 then LastBy(gs, t) else 0]
  }

  lemma OrderedAt(gs: seq<Gain>, i: int, j: int)
    requires Ordered(gs)
    ensures 0 <= i <= j < |gs| ==> gs[i].at <= gs[j].at
  {}

  lemma NearlyAt(gs: seq<Gain>, d: real, i: int, j: int)
    requires Nearly(gs, d) && d >= 0.0
    ensures 0 <= i <= j < |gs| ==> gs[i].at <= gs[j].at + d
  {}

  lemma LastByIs(gs: seq<Gain>, t: real, i: int)
    requires Ordered(gs) && -1 <= i < |gs|
    requires i >= 0 ==> gs[i].at <= t
    requires i + 1 < |gs| ==> gs[i + 1].at > t
    ensures LastBy(gs, t) == i
  {
    OrderedAt(gs, i + 1, LastBy(gs, t));
  }

  lemma SplitIs(gs: seq<Gain>, from: real)
    ensures var i := LastBy(gs, from);
      if i >= 0 && !gs[i].kernel && gs[i].at < from then Inserted(Split(gs, from), gs, i, Gain(from, gs[i].held, true))
      else Split(gs, from) == gs
  {}

  lemma InsertedOrdered(s: seq<Gain>, gs: seq<Gain>, i: nat, g: Gain)
    requires Ordered(gs) && Inserted(s, gs, i, g)
    requires gs[i].at <= g.at && (i + 1 < |gs| ==> g.at <= gs[i + 1].at)
    ensures Ordered(s)
  {
    forall a, b | 0 <= a < b < |s| ensures s[a].at <= s[b].at {
      assert s[a] == if a <= i then gs[a] else if a == i + 1 then g else gs[a - 1];
      assert s[b] == if b <= i then gs[b] else if b == i + 1 then g else gs[b - 1];
      OrderedAt(gs, a, i);
      OrderedAt(gs, i + 1, b - 1);
    }
  }

  lemma SplitOrdered(gs: seq<Gain>, from: real)
    requires Ordered(gs)
    ensures Ordered(Split(gs, from))
  {
    SplitIs(gs, from);
    if Split(gs, from) != gs {
      var i := LastBy(gs, from);
      InsertedOrdered(Split(gs, from), gs, i, Gain(from, gs[i].held, true));
    }
  }

  lemma HeldIs(gs: seq<Gain>, t: real, k: nat)
    requires Ordered(gs) && k < |gs| && gs[k].at <= t && (k + 1 < |gs| ==> gs[k + 1].at > t)
    ensures HeldAt(gs, t) == gs[k]
  {
    LastByIs(gs, t, k);
  }

  lemma InsertedHolds(s: seq<Gain>, gs: seq<Gain>, i: nat, g: Gain, t: real)
    requires Ordered(gs) && Inserted(s, gs, i, g) && Ordered(s) && i == LastBy(gs, g.at)
    ensures HeldAt(s, t) == if LastBy(gs, t) == i && t >= g.at then g else HeldAt(gs, t)
  {
    var k := LastBy(gs, t);
    OrderedAt(gs, i + 1, k);
    if k < 0 {
      LastByIs(s, t, -1);
    } else if t < g.at {
      assert k <= i && s[k] == gs[k];
      HeldIs(s, t, k);
    } else {
      InsertedLater(s, gs, i, g, t);
    }
  }

  lemma InsertedLater(s: seq<Gain>, gs: seq<Gain>, i: nat, g: Gain, t: real)
    requires Ordered(gs) && Inserted(s, gs, i, g) && Ordered(s) && i == LastBy(gs, g.at) && t >= g.at
    ensures HeldAt(s, t) == if LastBy(gs, t) == i then g else HeldAt(gs, t)
  {
    var k := LastBy(gs, t);
    OrderedAt(gs, k + 1, i);
    assert k >= i;
    assert s[k + 1] == if k == i then g else gs[k];
    assert k + 2 < |s| ==> s[k + 2] == gs[k + 1];
    HeldIs(s, t, k + 1);
  }

  /** A split keeps what held at every instant, but that it flags what it puts in. */
  lemma SplitHolds(gs: seq<Gain>, from: real, t: real)
    requires Ordered(gs) && gs != []
    ensures Split(gs, from) != [] && Split(gs, from)[0] == gs[0]
    ensures var x, y := HeldAt(gs, t), HeldAt(Split(gs, from), t);
      y == x || (y == Gain(from, x.held, true) && t >= from && x.at <= from)
    ensures t >= from && LastBy(gs, from) >= 0 ==>
      HeldAt(Split(gs, from), t).kernel || HeldAt(Split(gs, from), t).at >= from
  {
    SplitIs(gs, from);
    SplitOrdered(gs, from);
    var i := LastBy(gs, from);
    if Split(gs, from) != gs {
      InsertedHolds(Split(gs, from), gs, i, Gain(from, gs[i].held, true), t);
    }
    if t >= from { LastLater(gs, from, t); }
  }

  lemma LastLater(gs: seq<Gain>, a: real, b: real)
    requires Ordered(gs) && a <= b
    ensures LastBy(gs, a) <= LastBy(gs, b)
    ensures LastBy(gs, a) < LastBy(gs, b) ==> gs[LastBy(gs, b)].at > a
  {}

  lemma FlagKeeps(s: seq<Gain>, r: seq<Gain>, from: real, t: real)
    requires Ordered(s) && s != [] && |r| == |s|
    requires forall k :: 0 <= k < |r| ==> r[k] == Flagged(s[k], from)
    ensures Ordered(r)
    ensures HeldAt(r, t) == Flagged(HeldAt(s, t), from)
  {
    LastByIs(r, t, LastBy(s, t));
  }

  /** Marking keeps time order and changes nothing at any instant of the log but the kernel flag,
      which is set from `from` on and as it was before: the oldest entry's flag standing for all the
      time before it. */
  lemma MarkIsExact(gs: seq<Gain>, from: real, t: real)
    requires Ordered(gs) && gs != []
    ensures var r := MarkKernel(gs, from);
      && Ordered(r) && r != []
      && HeldAt(r, t).held == HeldAt(gs, t).held
      && HeldAt(r, t).kernel == (HeldAt(gs, t).kernel || Max(t, gs[0].at) >= from)
  {
    hide Split, InsertAfter, Ordered, MarkKernel;
    SplitOrdered(gs, from);
    SplitHolds(gs, from, t);
    FlagKeeps(Split(gs, from), MarkKernel(gs, from), from, t);
    LastLater(gs, Min(from, t), Max(from, t));
  }

  lemma {:induction false} InSpans(gs: seq<Gain>, from: real, to: real, n: nat, i: nat)
    requires i < n <= |gs| && Overlaps(gs, from, to, i)
    ensures SpanAt(gs, to, i) in SpansBelow(gs, from, to, n)
    decreases n
  {
    if i < n - 1 { InSpans(gs, from, to, n - 1, i); }
  }

  lemma {:induction false} FromSpans(gs: seq<Gain>, from: real, to: real, n: nat, s: Span) returns (i: nat)
    requires n <= |gs| && s in SpansBelow(gs, from, to, n)
    ensures i < n && Overlaps(gs, from, to, i) && s == SpanAt(gs, to, i)
    decreases n
  {
    if n > 0 && s in SpansBelow(gs, from, to, n - 1) {
      i := FromSpans(gs, from, to, n - 1, s);
    } else {
      i := n - 1;
    }
  }

  /** What held at an instant of the window is among the spans, ending no earlier: of any log, in
      order or not. */
  lemma HeldIsSpanned(gs: seq<Gain>, from: real, to: real, t: real) returns (s: Span)
    requires gs != [] && from <= t <= to
    ensures s in HeldSpans(gs, from, to) && s.gain == HeldAt(gs, t) && s.end >= t
  {
    var i := if LastBy(gs, t) >= 0 then LastBy(gs, t) else 0;
    s := SpanAt(gs, to, i);
    InSpans(gs, from, to, |gs|, i);
  }

  /** And a span held at some instant of the window, unless it was replaced the moment it came. */
  lemma SpanWasHeld(gs: seq<Gain>, from: real, to: real, s: Span) returns (t: real)
    requires Ordered(gs) && from <= to && s in HeldSpans(gs, from, to)
    ensures from <= t <= to
    ensures s.gain == HeldAt(gs, t)
         || exists i :: 0 <= i < |gs| - 1 && s.gain == gs[i] && gs[i + 1].at == gs[i].at
  {
    var i := FromSpans(gs, from, to, |gs|, s);
    if i == 0 && gs[0].at > to {
      t := from;
    } else {
      t := Max(from, gs[i].at);
      if i + 1 == |gs| || gs[i + 1].at > gs[i].at { LastByIs(gs, t, i); }
    }
  }

  lemma {:induction false} NoSpansBelow(gs: seq<Gain>, from: real, to: real, n: nat)
    requires n <= |gs| && forall i :: 0 <= i < n ==> !Overlaps(gs, from, to, i)
    ensures SpansBelow(gs, from, to, n) == []
  {
    if n > 0 { NoSpansBelow(gs, from, to, n - 1); }
  }

  lemma {:induction false} SpansOfTail(gs: seq<Gain>, k: nat, from: real, to: real, n: nat)
    requires k < |gs| && n <= |gs| - k
    requires forall i :: 0 <= i < k ==> !Overlaps(gs, from, to, i)
    requires k > 0 ==> gs[k].at <= to
    ensures SpansBelow(gs[k..], from, to, n) == SpansBelow(gs, from, to, k + n)
  {
    if n == 0 {
      NoSpansBelow(gs, from, to, k);
    } else {
      SpansOfTail(gs, k, from, to, n - 1);
      assert Overlaps(gs[k..], from, to, n - 1) == Overlaps(gs, from, to, k + n - 1);
    }
  }

  /** Pruning never changes what a query from the prune point on is told, or from `d` after it if the
      log is in order but for `d`. */
  lemma PruneIsInvisible(gs: seq<Gain>, d: real, p: real, from: real, to: real)
    requires Nearly(gs, d) && d >= 0.0 && p + d <= from <= to
    ensures Nearly(Prune(gs, p), d)
    ensures HeldSpans(Prune(gs, p), from, to) == HeldSpans(gs, from, to)
  {
    var k := LastBy(gs, p);
    if k > 0 {
      forall i | 0 <= i < k ensures !Overlaps(gs, from, to, i) {
        NearlyAt(gs, d, i + 1, k);
      }
      SpansOfTail(gs, k, from, to, |gs| - k);
    }
  }

  // ---- the reductions a frame may have been converted at ----------------------------------------------

  /** What the card may convert at while an entry holds: what the controls may be at, or its own
      safe level if that is more. */
  predicate MayApply(g: Gain, safe: real, unknownFloor: real, r: real) {
    if g.held.Unknown? then unknownFloor <= r <= MUTE_DB
    else
      && g.held.lo <= g.held.hi
      && (g.held.lo <= r <= g.held.hi || (g.kernel && Max(safe, g.held.lo) <= r <= Max(safe, g.held.hi)))
  }

  lemma {:induction false} RangesHold(spans: seq<Span>, safe: real, unknownFloor: real, k: nat, r: real)
      returns (i: nat)
    requires k < |spans| && MayApply(spans[k].gain, safe, unknownFloor, r)
    ensures i < |RangesOver(spans, safe, unknownFloor)|
    ensures RangesOver(spans, safe, unknownFloor)[i].lo <= r <= RangesOver(spans, safe, unknownFloor)[i].hi
    decreases |spans|
  {
    var front := RangesOver(spans[..|spans| - 1], safe, unknownFloor);
    if k < |spans| - 1 {
      i := RangesHold(spans[..|spans| - 1], safe, unknownFloor, k, r);
    } else {
      var g := spans[k].gain;
      i := |front| + if g.held.Held? && !(g.held.lo <= r <= g.held.hi) then 1 else 0;
    }
  }

  /** Whatever the card may have applied at an instant of the window is in one of the ranges. */
  lemma PossibleIsComplete(gs: seq<Gain>, safe: real, unknownFloor: real, from: real, to: real, t: real,
                          r: real) returns (i: nat)
    requires gs != [] && from <= t <= to
    requires MayApply(HeldAt(gs, t), safe, unknownFloor, r)
    ensures var rs := PossibleReductions(gs, safe, unknownFloor, from, to);
      i < |rs| && rs[i].lo <= r <= rs[i].hi
  {
    var s := HeldIsSpanned(gs, from, to, t);
    var k :| 0 <= k < |HeldSpans(gs, from, to)| && HeldSpans(gs, from, to)[k] == s;
    i := RangesHold(HeldSpans(gs, from, to), safe, unknownFloor, k, r);
  }

  /** A frame of a source at `a` of full scale, converted at some instant of the window at anything
      the card may have applied then: the power before the gain the inversion through the log
      reports is at least the source's. */
  lemma LoggedFrameIsSound(c: Curves, s: Spec, gs: seq<Gain>, safe: real, unknownFloor: real, from: real, to: real,
                           t: real, w: int, a: real, r: real, g: real, eps: real)
    requires Lawful(c) && ValidSpec(s) && gs != [] && from <= t <= to
    requires MayApply(HeldAt(gs, t), safe, unknownFloor, r)
    requires 0.0 <= eps <= ROOM_EPS_DB && 0.0 <= a <= 1.0 && c.gain(r + eps) <= g <= c.gain(r - eps)
    requires Abs(w) as real <= a * g * FULL_WORD <= (Abs(w) + 1) as real
    ensures Source(s, a * c.gain(2.0 * eps)) <= Before(c, s, w, PossibleReductions(gs, safe, unknownFloor, from, to))
    ensures eps == 0.0 ==> Source(s, a) <= Before(c, s, w, PossibleReductions(gs, safe, unknownFloor, from, to))
  {
    var i := PossibleIsComplete(gs, safe, unknownFloor, from, to, t, r);
    InversionIsSound(c, s, w, PossibleReductions(gs, safe, unknownFloor, from, to), i, a, r, g, eps);
  }

  // ---- the least reduction is never over the truth ---------------------------------------------------

  /** From `at` on the controls really held at least `db`, and no control less. */
  datatype Real = Real(at: real, db: real)

  /** An entry no higher than `db` that was not replaced before `until`. */
  predicate Lasts(gs: seq<Gain>, j: int, db: real, until: real) {
    0 <= j < |gs| && Least(gs[j].held) <= db && (j + 1 < |gs| ==> gs[j + 1].at >= until)
  }

  ghost predicate Covered(gs: seq<Gain>, db: real, until: real) {
    exists j :: Lasts(gs, j, db, until)
  }

  /** The log covers what the controls really did since `p`: the newest entry what they hold now,
      and some entry each earlier value, up to when it went. */
  ghost predicate Covers(gs: seq<Gain>, trace: seq<Real>, p: real) {
    && gs != [] && trace != []
    && Least(gs[|gs| - 1].held) <= trace[|trace| - 1].db
    && forall i :: 0 <= i < |trace| - 1 && trace[i + 1].at > p ==> Covered(gs, trace[i].db, trace[i + 1].at)
  }

  lemma {:induction false} LeastOfIs(spans: seq<Span>, start: real, k: nat)
    ensures LeastOf(spans, start) <= start
    ensures k < |spans| ==> LeastOf(spans, start) <= Least(spans[k].gain.held)
    decreases |spans|
  {
    if spans != [] { LeastOfIs(spans[..|spans| - 1], start, if k < |spans| - 1 then k else 0); }
  }

  lemma LeastSinceIs(gs: seq<Gain>, written: Held, from: real, j: nat)
    requires j < |gs| && gs[j].at <= from - QUEUE_BOUND + FAR
    requires j + 1 < |gs| ==> gs[j + 1].at > from - QUEUE_BOUND
    ensures LeastSince(gs, written, from) <= Least(gs[j].held)
  {
    var a, b := from - QUEUE_BOUND, from - QUEUE_BOUND + FAR;
    InSpans(gs, a, b, |gs|, j);
    var k :| 0 <= k < |HeldSpans(gs, a, b)| && HeldSpans(gs, a, b)[k] == SpanAt(gs, b, j);
    LeastOfIs(HeldSpans(gs, a, b), Least(written), k);
  }

  /** An entry ahead of the clock has one behind it that held the same till then. */
  lemma {:induction false} NotAhead(gs: seq<Gain>, clock: real, j: nat) returns (i: nat)
    requires Copies(gs, clock) && j < |gs|
    ensures i <= j && gs[i].at <= clock && gs[i].held == gs[j].held
    ensures i < j ==> gs[i + 1].at > clock
    decreases j
  {
    i := j;
    if gs[j].at > clock {
      i := NotAhead(gs, clock, j - 1);
    }
  }

  /** The least since a boundary is at most what the controls really held at any instant from
      QUEUE_BOUND before it on, as long as the look reaches the clock. */
  lemma LeastIsUnderTruth(gs: seq<Gain>, written: Held, trace: seq<Real>, p: real, from: real, clock: real, i: nat)
    requires Covers(gs, trace, p) && p <= from - QUEUE_BOUND
    requires Copies(gs, clock) && clock <= from - QUEUE_BOUND + FAR
    requires from - QUEUE_BOUND <= clock || forall j :: 0 <= j < |gs| ==> gs[j].at <= clock
    requires i < |trace| && (i + 1 < |trace| ==> trace[i + 1].at > from - QUEUE_BOUND)
    ensures LeastSince(gs, written, from) <= trace[i].db
  {
    var j: int := |gs| - 1;
    if i + 1 < |trace| {
      j :| Lasts(gs, j, trace[i].db, trace[i + 1].at);
    }
    var k := NotAhead(gs, clock, j);
    LeastSinceIs(gs, written, from, k);
  }

  /** A log in order, with entries up to `clock`, that covers what the controls did since `p`; they held
      `trace[i]` at some instant from QUEUE_BOUND before `from` on. */
  ghost predicate HeldSince(clock: real, from: real, gs: seq<Gain>, trace: seq<Real>, p: real, i: nat) {
    && Ordered(gs) && Covers(gs, trace, p) && p <= from - QUEUE_BOUND
    && (forall j :: 0 <= j < |gs| ==> gs[j].at <= clock)
    && i < |trace| && (i + 1 < |trace| ==> trace[i + 1].at > from - QUEUE_BOUND)
  }

  /** For every such log, its newest entry what is known to be written, and every such instant: the least
      since `from` is at most what the controls held. */
  ghost predicate LookSees(clock: real, from: real) {
    forall gs: seq<Gain>, trace: seq<Real>, p: real, i: nat :: HeldSince(clock, from, gs, trace, p, i)
      ==> LeastSince(gs, gs[|gs| - 1].held, from) <= trace[i].db
  }

  /** The look sees enough if and only if the clock is within FAR of the boundary's window. */
  lemma LookSeesIff(clock: real, from: real)
    ensures LookSees(clock, from) <==> clock <= from - QUEUE_BOUND + FAR
  {
    if clock <= from - QUEUE_BOUND + FAR {
      forall gs: seq<Gain>, trace: seq<Real>, p: real, i: nat | HeldSince(clock, from, gs, trace, p, i)
        ensures LeastSince(gs, gs[|gs| - 1].held, from) <= trace[i].db
      {
        LeastIsUnderTruth(gs, gs[|gs| - 1].held, trace, p, from, clock, i);
      }
    } else {
      LookEndsEarly(clock, from);
      assert HeldSince(clock, from, LongLog(clock, from), LongTrace(clock, from), from - QUEUE_BOUND, 1);
    }
  }

  /** A write at full gain after the look's far end, and back again. */
  function LongLog(clock: real, from: real): seq<Gain> {
    var a := from - QUEUE_BOUND;
    [Gain(a, Held(20.0, 20.0), false), Gain((a + FAR + clock) / 2.0, Held(0.0, 0.0), false),
     Gain(clock, Held(20.0, 20.0), false)]
  }

  function LongTrace(clock: real, from: real): seq<Real> {
    var gs := LongLog(clock, from);
    [Real(gs[0].at, 20.0), Real(gs[1].at, 0.0), Real(gs[2].at, 20.0)]
  }

  lemma LongLogCovers(clock: real, from: real)
    requires clock > from - QUEUE_BOUND + FAR
    ensures Ordered(LongLog(clock, from)) && Covers(LongLog(clock, from), LongTrace(clock, from), from - QUEUE_BOUND)
    ensures LongLog(clock, from)[0].at < from - QUEUE_BOUND + FAR < LongLog(clock, from)[1].at < clock
  {
    var gs, trace := LongLog(clock, from), LongTrace(clock, from);
    forall i | 0 <= i < |trace| - 1 ensures Covered(gs, trace[i].db, trace[i + 1].at) {
      assert Lasts(gs, i, trace[i].db, trace[i + 1].at);
    }
  }

  /** A boundary more than FAR old defeats it: the look ends before the log does, and a write at
      full gain in between is not seen. */
  lemma LookEndsEarly(clock: real, from: real)
    requires clock > from - QUEUE_BOUND + FAR
    ensures Ordered(LongLog(clock, from)) && Covers(LongLog(clock, from), LongTrace(clock, from), from - QUEUE_BOUND)
    ensures LeastSince(LongLog(clock, from), Held(20.0, 20.0), from) > LongTrace(clock, from)[1].db
    ensures forall j :: 0 <= j < 3 ==> LongLog(clock, from)[j].at <= clock
    ensures LongTrace(clock, from)[2].at > from - QUEUE_BOUND
  {
    LongLogCovers(clock, from);
    var gs := LongLog(clock, from);
    var a, b := from - QUEUE_BOUND, from - QUEUE_BOUND + FAR;
    assert SpansBelow(gs, a, b, 0) == [];
    assert SpansBelow(gs, a, b, 1) == [SpanAt(gs, b, 0)] by { assert Overlaps(gs, a, b, 0); }
    assert HeldSpans(gs, a, b) == [SpanAt(gs, b, 0)] by {
      assert !Overlaps(gs, a, b, 1) && !Overlaps(gs, a, b, 2);
      assert SpansBelow(gs, a, b, 2) == SpansBelow(gs, a, b, 1);
    }
    LeastOfOne(SpanAt(gs, b, 0), 20.0);
  }

  lemma LeastOfOne(s: Span, start: real)
    ensures LeastOf([s], start) == Min(start, Least(s.gain.held))
  {
    assert [s][..0] == [];
  }

  // ---- every operation keeps the cover ------------------------------------------------------------------

  /** A start's log, an unknown value and then what the controls' minimum was read as, covers anything
      they held before. */
  lemma StartCovers(gs: seq<Gain>, trace: seq<Real>, p: real, now: real)
    requires gs != [] && gs[0].held.Unknown? && (|gs| > 1 ==> gs[1].at == now) && trace != []
    requires forall i :: 0 <= i < |trace| ==> trace[i].at <= now && trace[i].db >= 0.0
    requires Least(gs[|gs| - 1].held) <= trace[|trace| - 1].db
    ensures Covers(gs, trace, p)
  {
    forall i | 0 <= i < |trace| - 1 && trace[i + 1].at > p ensures Covered(gs, trace[i].db, trace[i + 1].at) {
      assert Lasts(gs, 0, trace[i].db, trace[i + 1].at);
    }
  }

  lemma CoveredByMore(gs: seq<Gain>, g: Gain, db: real, until: real)
    requires Covered(gs, db, until) && g.at >= until
    ensures Covered(gs + [g], db, until)
  {
    var j :| Lasts(gs, j, db, until);
    assert Lasts(gs + [g], j, db, until);
  }

  /** The newest entry covers whatever was held till now. */
  lemma CoveredByLast(gs: seq<Gain>, db: real, until: real)
    requires gs != [] && Least(gs[|gs| - 1].held) <= db
    ensures Covered(gs, db, until)
  {
    assert Lasts(gs, |gs| - 1, db, until);
  }

  /** The controls changed, any number of times and not below `db`, where the newest entry's least
      is at most `db`. */
  lemma {:induction false} ControlsMoved(gs: seq<Gain>, trace: seq<Real>, moves: seq<Real>, p: real)
    requires Covers(gs, trace, p)
    requires forall i :: 0 <= i < |moves| ==> moves[i].db >= Least(gs[|gs| - 1].held)
    ensures Covers(gs, trace + moves, p)
  {
    var t := trace + moves;
    forall i | 0 <= i < |t| - 1 && t[i + 1].at > p ensures Covered(gs, t[i].db, t[i + 1].at) {
      if i >= |trace| - 1 { CoveredByLast(gs, t[i].db, t[i + 1].at); }
    }
  }

  /** A new entry no higher than what is held now. */
  lemma NoteCovers(gs: seq<Gain>, trace: seq<Real>, g: Gain, p: real)
    requires Covers(gs, trace, p) && Least(g.held) <= trace[|trace| - 1].db
    requires forall i :: 0 <= i < |trace| ==> trace[i].at <= g.at
    ensures Covers(Note(gs, g), trace, p)
  {
    if Note(gs, g) != gs {
      forall i | 0 <= i < |trace| - 1 && trace[i + 1].at > p ensures Covered(gs + [g], trace[i].db, trace[i + 1].at) {
        CoveredByMore(gs, g, trace[i].db, trace[i + 1].at);
      }
    }
  }

  lemma NoteOrdered(gs: seq<Gain>, g: Gain)
    requires Ordered(gs) && (gs != [] ==> gs[|gs| - 1].at <= g.at)
    ensures Ordered(Note(gs, g))
    ensures Note(gs, g) != [] && Note(gs, g)[|Note(gs, g)| - 1].held == g.held
    ensures forall i :: 0 <= i < |Note(gs, g)| ==> i < |gs| || Note(gs, g)[i] == g
  {}

  /** The log's shape with marks up to `d` ahead of the clock, and no reduction under none. */
  ghost predicate Shaped(gs: seq<Gain>, d: real, clock: real) {
    && gs != [] && Nearly(gs, d) && Copies(gs, clock)
    && forall i :: 0 <= i < |gs| ==> gs[i].at <= clock + d && Least(gs[i].held) >= 0.0
  }

  lemma ShapedIsNear(gs: seq<Gain>, d: real, clock: real)
    requires Shaped(gs, d, clock)
    ensures gs != [] && Nearly(gs, d) && Copies(gs, clock)
  {}

  lemma StartShaped(gs: seq<Gain>, d: real, now: real)
    requires gs != [] && d >= 0.0
    requires forall i :: 0 <= i < |gs| ==> gs[i].at == now && Least(gs[i].held) >= 0.0
    ensures Shaped(gs, d, now)
  {}

  lemma ShapedLater(gs: seq<Gain>, d: real, clock: real, later: real)
    requires Shaped(gs, d, clock) && clock <= later
    ensures Shaped(gs, d, later)
  {}

  lemma NoteShaped(gs: seq<Gain>, g: Gain, d: real, clock: real)
    requires Shaped(gs, d, clock) && d >= 0.0 && clock <= g.at && Least(g.held) >= 0.0
    ensures var r := Note(gs, g);
      Shaped(r, d, g.at) && r[|r| - 1].held == g.held && r[|r| - 1].kernel == g.kernel
  {}

  /** A write noted from before the call on at the lesser of the two values, while the controls
      moved inside the call to no less than that. */
  lemma WriteCovers(gs: seq<Gain>, trace: seq<Real>, moves: seq<Real>, g: Gain, p: real)
    requires Covers(gs, trace, p)
    requires Least(g.held) <= Least(gs[|gs| - 1].held)
    requires forall i :: 0 <= i < |trace| ==> trace[i].at <= g.at
    requires forall i :: 0 <= i < |moves| ==> moves[i].db >= Least(g.held)
    ensures Covers(gs + [g], trace + moves, p)
  {
    forall i | 0 <= i < |trace| - 1 && trace[i + 1].at > p ensures Covered(gs + [g], trace[i].db, trace[i + 1].at) {
      CoveredByMore(gs, g, trace[i].db, trace[i + 1].at);
    }
    ControlsMoved(gs + [g], trace, moves, p);
  }

  lemma SplitLasts(gs: seq<Gain>, from: real, j: int, db: real, until: real) returns (k: int)
    requires Lasts(gs, j, db, until)
    ensures Lasts(Split(gs, from), k, db, until)
  {
    SplitIs(gs, from);
    var i := LastBy(gs, from);
    k := if Split(gs, from) != gs && j >= i then j + 1 else j;
  }

  lemma SplitEnd(gs: seq<Gain>, from: real)
    requires gs != []
    ensures var r := Split(gs, from);
      && r != [] && r[|r| - 1].held == gs[|gs| - 1].held && r[|r| - 1].at <= Max(gs[|gs| - 1].at, from)
  {
    hide Split, InsertAfter;
    SplitIs(gs, from);
  }

  lemma MarkCovered(gs: seq<Gain>, from: real, db: real, until: real)
    requires Covered(gs, db, until)
    ensures Covered(MarkKernel(gs, from), db, until)
  {
    var j :| Lasts(gs, j, db, until);
    var k := SplitLasts(gs, from, j, db, until);
    var r := MarkKernel(gs, from);
    assert Lasts(r, k, db, until) by {
      assert r[k].held == Split(gs, from)[k].held;
      assert k + 1 < |r| ==> r[k + 1].at == Split(gs, from)[k + 1].at;
    }
  }

  lemma InsertedShaped(s: seq<Gain>, gs: seq<Gain>, i: nat, g: Gain, d: real, clock: real)
    requires Shaped(gs, d, clock) && d >= 0.0 && Inserted(s, gs, i, g)
    requires i == LastBy(gs, g.at) && g.held == gs[i].held && g.kernel && g.at <= clock + d
    ensures Shaped(s, d, clock)
  {
    InsertedNearly(s, gs, i, g, d);
    hide Nearly;
    forall a | 0 <= a < |s| && s[a].at > clock ensures s[a].kernel && a > 0 && s[a - 1].held == s[a].held {
      assert s[a] == if a <= i then gs[a] else if a == i + 1 then g else gs[a - 1];
      if a > 0 { assert s[a - 1] == if a - 1 <= i then gs[a - 1] else if a - 1 == i + 1 then g else gs[a - 2]; }
    }
    forall a | 0 <= a < |s| ensures s[a].at <= clock + d && Least(s[a].held) >= 0.0 {
      assert s[a] == if a <= i then gs[a] else if a == i + 1 then g else gs[a - 1];
    }
  }

  lemma InsertedNearly(s: seq<Gain>, gs: seq<Gain>, i: nat, g: Gain, d: real)
    requires Nearly(gs, d) && d >= 0.0 && Inserted(s, gs, i, g) && i == LastBy(gs, g.at)
    ensures Nearly(s, d)
  {
    forall a, b | 0 <= a < b < |s| ensures s[a].at <= s[b].at + d {
      assert s[a] == if a <= i then gs[a] else if a == i + 1 then g else gs[a - 1];
      assert s[b] == if b <= i then gs[b] else if b == i + 1 then g else gs[b - 1];
      NearlyAt(gs, d, a, i);
    }
  }

  lemma FlaggedShaped(s: seq<Gain>, r: seq<Gain>, from: real, d: real, clock: real)
    requires Shaped(s, d, clock) && |r| == |s|
    requires forall k :: 0 <= k < |r| ==> r[k] == Flagged(s[k], from)
    ensures Shaped(r, d, clock)
  {
    forall a, b | 0 <= a < b < |r| ensures r[a].at <= r[b].at + d {
      assert r[a].at == s[a].at && r[b].at == s[b].at;
    }
    forall a | 0 <= a < |r| && r[a].at > clock ensures r[a].kernel && a > 0 && r[a - 1].held == r[a].held {
      assert r[a].held == s[a].held && s[a].at > clock;
    }
  }

  /** Marking from up to `d` ahead of the clock keeps the log's shape and the newest value ... */
  lemma MarkShaped(gs: seq<Gain>, from: real, d: real, clock: real)
    requires Shaped(gs, d, clock) && d >= 0.0 && from <= clock + d
    ensures var r := MarkKernel(gs, from);
      && Shaped(r, d, clock)
      && r[|r| - 1].held == gs[|gs| - 1].held
      && (gs[|gs| - 1].kernel ==> r[|r| - 1].kernel)
  {
    hide Shaped;
    SplitIs(gs, from);
    var s, r := Split(gs, from), MarkKernel(gs, from);
    var i := LastBy(gs, from);
    if s != gs { InsertedShaped(s, gs, i, Gain(from, gs[i].held, true), d, clock); }
    FlaggedShaped(s, r, from, d, clock);
    SplitEnd(gs, from);
    assert r[|r| - 1] == Flagged(s[|s| - 1], from);
  }

  lemma MarkEnd(gs: seq<Gain>, from: real)
    requires gs != []
    ensures var r := MarkKernel(gs, from); r != [] && r[|r| - 1].held == gs[|gs| - 1].held
  {
    SplitEnd(gs, from);
    var s := Split(gs, from);
    assert MarkKernel(gs, from)[|s| - 1] == Flagged(s[|s| - 1], from);
  }

  /** ... and the cover. */
  lemma MarkCovers(gs: seq<Gain>, trace: seq<Real>, from: real, p: real)
    requires Covers(gs, trace, p)
    ensures Covers(MarkKernel(gs, from), trace, p)
  {
    MarkEnd(gs, from);
    var r := MarkKernel(gs, from);
    forall i | 0 <= i < |trace| - 1 && trace[i + 1].at > p ensures Covered(r, trace[i].db, trace[i + 1].at) {
      MarkCovered(gs, from, trace[i].db, trace[i + 1].at);
    }
  }

  lemma PruneShaped(gs: seq<Gain>, from: real, d: real, clock: real)
    requires Shaped(gs, d, clock) && from <= clock
    ensures Shaped(Prune(gs, from), d, clock)
    ensures Prune(gs, from)[|Prune(gs, from)| - 1] == gs[|gs| - 1]
  {
    var k := LastBy(gs, from);
    if k >= 0 { TailShaped(gs, k, d, clock); }
  }

  lemma TailShaped(gs: seq<Gain>, k: nat, d: real, clock: real)
    requires Shaped(gs, d, clock) && k < |gs| && gs[k].at <= clock
    ensures Shaped(gs[k..], d, clock)
  {
    var r := gs[k..];
    forall a | 0 <= a < |r| && r[a].at > clock ensures r[a].kernel && a > 0 && r[a - 1].held == r[a].held {
      assert r[a] == gs[k + a];
    }
  }

  lemma PruneCovered(gs: seq<Gain>, d: real, q: real, db: real, until: real)
    requires Nearly(gs, d) && d >= 0.0 && Covered(gs, db, until) && until > q + d
    ensures Covered(Prune(gs, q), db, until)
  {
    var k := LastBy(gs, q);
    var j :| Lasts(gs, j, db, until);
    if k >= 0 {
      NearlyAt(gs, d, j + 1, k);
      assert Lasts(gs[k..], j - k, db, until);
    }
  }

  /** Pruning keeps them from the prune point on, or from `d` after it if the log is in order but for
      `d`. */
  lemma PruneCovers(gs: seq<Gain>, d: real, trace: seq<Real>, p: real, q: real)
    requires Nearly(gs, d) && d >= 0.0 && Covers(gs, trace, p)
    ensures Covers(Prune(gs, q), trace, Max(p, q + d))
    ensures Prune(gs, q)[|Prune(gs, q)| - 1] == gs[|gs| - 1]
  {
    forall i | 0 <= i < |trace| - 1 && trace[i + 1].at > Max(p, q + d)
      ensures Covered(Prune(gs, q), trace[i].db, trace[i + 1].at)
    {
      PruneCovered(gs, d, q, trace[i].db, trace[i + 1].at);
    }
  }

  /** The controls moved inside a call, and an entry no higher than the old value and than anything
      they moved to was noted, from before the call or after it. */
  lemma WriteNoted(gs: seq<Gain>, trace: seq<Real>, moves: seq<Real>, g: Gain, p: real)
    requires Covers(gs, trace, p)
    requires Least(g.held) <= Least(gs[|gs| - 1].held)
    requires forall i :: 0 <= i < |trace| ==> trace[i].at <= g.at
    requires forall i :: 0 <= i < |moves| ==> moves[i].db >= Least(g.held)
    ensures Covers(Note(gs, g), trace + moves, p)
  {
    if Note(gs, g) == gs {
      ControlsMoved(gs, trace, moves, p);
    } else {
      WriteCovers(gs, trace, moves, g, p);
    }
  }

  lemma MarkAhead(gs: seq<Gain>, now: real, from: real)
    requires gs != [] && forall i :: 0 <= i < |gs| ==> gs[i].at <= now
    requires now < from && !gs[|gs| - 1].kernel
    ensures MarkKernel(gs, from) == gs + [Gain(from, gs[|gs| - 1].held, true)]
  {
    assert LastBy(gs, from) == |gs| - 1;
    var g := Gain(from, gs[|gs| - 1].held, true);
    assert Split(gs, from) == gs + [g];
    var r := MarkKernel(gs, from);
    forall k | 0 <= k < |r| ensures r[k] == (gs + [g])[k] {}
  }

  lemma MarkNothing(gs: seq<Gain>, now: real, from: real)
    requires gs != [] && forall i :: 0 <= i < |gs| ==> gs[i].at <= now
    requires now < from && gs[|gs| - 1].kernel
    ensures MarkKernel(gs, from) == gs
  {
    assert LastBy(gs, from) == |gs| - 1 && Split(gs, from) == gs;
    var r := MarkKernel(gs, from);
    forall k | 0 <= k < |r| ensures r[k] == gs[k] {}
  }

  /** The log stays in order through a mark and the next note exactly when the mark is not ahead of the
      note, or the newest entry was flagged already, or the note says nothing new. */
  lemma MarkOrderIff(gs: seq<Gain>, now: real, from: real, g: Gain)
    requires Ordered(gs) && gs != [] && gs[|gs| - 1].at <= now == g.at
    ensures Ordered(Note(MarkKernel(gs, from), g))
       <==> from <= now || gs[|gs| - 1].kernel || (g.held == gs[|gs| - 1].held && g.kernel)
  {
    var last := gs[|gs| - 1];
    assert forall i :: 0 <= i < |gs| ==> gs[i].at <= now by {
      forall i | 0 <= i < |gs| ensures gs[i].at <= now { OrderedAt(gs, i, |gs| - 1); }
    }
    if from <= now {
      MarkInOrder(gs, now, from);
      NoteOrdered(MarkKernel(gs, from), g);
    } else if last.kernel {
      MarkNothing(gs, now, from);
      NoteOrdered(gs, g);
    } else {
      MarkAhead(gs, now, from);
      var r := Note(MarkKernel(gs, from), g);
      if g.held != last.held || !g.kernel {
        assert r[|gs|].at == from && r[|gs| + 1].at == now;
      }
    }
  }

  lemma MarkInOrder(gs: seq<Gain>, now: real, from: real)
    requires Ordered(gs) && gs != [] && gs[|gs| - 1].at <= now && from <= now
    ensures var r := MarkKernel(gs, from); Ordered(r) && r != [] && r[|r| - 1].at <= now
  {
    MarkIsExact(gs, from, now);
    SplitEnd(gs, from);
    var s := Split(gs, from);
    assert MarkKernel(gs, from)[|s| - 1] == Flagged(s[|s| - 1], from);
  }

  // ---- a write that failed ----------------------------------------------------------------------

  ghost predicate Allowed(ranges: seq<Range>, r: real) {
    exists i :: 0 <= i < |ranges| && ranges[i].lo <= r <= ranges[i].hi
  }

  /** What a failed write notes: some controls may hold the target, rounded up by up to a step, and some
      what they held. */
  function Failed(held: Held, target: real, step: real): Held
    requires held.Held?
  {
    Held(Min(held.lo, target), Max(held.hi, target + step))
  }

  /** An entry from after the window is not in it. */
  lemma NoteAfterWindow(gs: seq<Gain>, g: Gain, from: real, to: real)
    requires gs != [] && from <= to < g.at
    ensures HeldSpans(Note(gs, g), from, to) == HeldSpans(gs, from, to)
  {
    var r := Note(gs, g);
    if r != gs {
      assert !Overlaps(r, from, to, |gs|);
      SameSpans(gs, g, from, to, |gs|);
    }
  }

  lemma {:induction false} SameSpans(gs: seq<Gain>, g: Gain, from: real, to: real, n: nat)
    requires from <= to < g.at && n <= |gs|
    ensures SpansBelow(gs + [g], from, to, n) == SpansBelow(gs, from, to, n)
  {
    if n > 0 {
      SameSpans(gs, g, from, to, n - 1);
      assert Overlaps(gs + [g], from, to, n - 1) == Overlaps(gs, from, to, n - 1);
      assert SpanAt(gs + [g], to, n - 1) == SpanAt(gs, to, n - 1);
    }
  }

  /** A failed write is noted only from the end of its call on. What the controls then took is among
      what the log says a frame may have been converted at, over any window, if and only if the window
      reaches that end or the log said so before. */
  lemma FailedWriteIff(gs: seq<Gain>, after: real, target: real, step: real, v: real, from: real, to: real, safe: real,
                       unknownFloor: real)
    requires gs != [] && gs[|gs| - 1].held.Held? && gs[|gs| - 1].at <= after && from <= to
    requires target <= v <= target + step
    ensures var noted := Note(gs, Gain(after, Failed(gs[|gs| - 1].held, target, step), false));
      Allowed(PossibleReductions(noted, safe, unknownFloor, from, to), v)
      <==> to >= after || Allowed(PossibleReductions(gs, safe, unknownFloor, from, to), v)
  {
    var g := Gain(after, Failed(gs[|gs| - 1].held, target, step), false);
    var r := Note(gs, g);
    if to >= after {
      NewestIsSpanned(r, from, to);
      var k :| 0 <= k < |HeldSpans(r, from, to)| && HeldSpans(r, from, to)[k] == SpanAt(r, to, |r| - 1);
      var i := RangesHold(HeldSpans(r, from, to), safe, unknownFloor, k, v);
    } else {
      NoteAfterWindow(gs, g, from, to);
    }
  }

  lemma NewestIsSpanned(gs: seq<Gain>, from: real, to: real)
    requires gs != [] && gs[|gs| - 1].at <= to
    ensures SpanAt(gs, to, |gs| - 1) in HeldSpans(gs, from, to)
  {
    InSpans(gs, from, to, |gs|, |gs| - 1);
  }

  /** So over a window inside the newest entry, held by the daemon: exactly if the window reaches the end
      of the call, or the value lies in what was held. */
  lemma FailedWriteIsLate(gs: seq<Gain>, after: real, target: real, step: real, v: real, from: real, to: real, safe: real,
                          unknownFloor: real)
    requires gs != [] && gs[|gs| - 1].held.Held? && gs[|gs| - 1].at <= from <= to && from <= after
    requires !gs[|gs| - 1].kernel && target <= v <= target + step
    requires forall i :: 0 <= i < |gs| ==> gs[i].at <= from
    ensures var held := gs[|gs| - 1].held;
      var noted := Note(gs, Gain(after, Failed(held, target, step), false));
      Allowed(PossibleReductions(noted, safe, unknownFloor, from, to), v) <==> to >= after || held.lo <= v <= held.hi
  {
    FailedWriteIff(gs, after, target, step, v, from, to, safe, unknownFloor);
    OnlyNewest(gs, from, to, safe, unknownFloor);
    var rs := PossibleReductions(gs, safe, unknownFloor, from, to);
    if gs[|gs| - 1].held.lo <= v <= gs[|gs| - 1].held.hi { assert rs[0].lo <= v <= rs[0].hi; }
  }

  /** From its newest entry on a log says only what that entry does. */
  lemma OnlyNewest(gs: seq<Gain>, from: real, to: real, safe: real, unknownFloor: real)
    requires gs != [] && from <= to && forall i :: 0 <= i < |gs| ==> gs[i].at <= from
    ensures PossibleReductions(gs, safe, unknownFloor, from, to) == RangesOf(gs[|gs| - 1], safe, unknownFloor)
  {
    var l := |gs| - 1;
    forall i | 0 <= i < l ensures !Overlaps(gs, from, to, i) {
      assert gs[i + 1].at <= from;
    }
    NoSpansBelow(gs, from, to, l);
    var s := SpanAt(gs, to, l);
    assert Overlaps(gs, from, to, l) && HeldSpans(gs, from, to) == [s];
    assert [s][..0] == [] && RangesOver([], safe, unknownFloor) == [];
    assert RangesOver([s], safe, unknownFloor) == RangesOf(s.gain, safe, unknownFloor);
  }

  // ---- and one that took ------------------------------------------------------------------------

  /** The log after a write that took: from before the call on anything between the old value and the
      new, from its end the new. */
  function WriteLog(gs: seq<Gain>, held: Held, value: real, before: real, after: real): seq<Gain> {
    var settled := Gain(after, Held(value, value), false);
    if held.Unknown? || held == Held(value, value) then Note(gs, settled)
    else Note(Note(gs, Gain(before, Held(Min(held.lo, value), Max(held.hi, value)), false)), settled)
  }

  /** What a note changes of any log whose newest entry is not ahead of it, or is a mark of the card's. */
  lemma NoteHolds(gs: seq<Gain>, g: Gain, t: real)
    requires gs != [] && (gs[|gs| - 1].at <= g.at || (gs[|gs| - 1].kernel && !g.kernel))
    ensures t < g.at ==> HeldAt(Note(gs, g), t) == HeldAt(gs, t)
    ensures t >= g.at ==> HeldAt(Note(gs, g), t).held == g.held && HeldAt(Note(gs, g), t).kernel == g.kernel
  {
    var r := Note(gs, g);
    if r != gs { assert r[..|r| - 1] == gs; }
  }

  /** Of a log with at most marks ahead of the clock: what its newest entry holds has held since. */
  lemma {:induction false} SameHeld(gs: seq<Gain>, clock: real, t: real)
    requires gs != [] && Copies(gs, clock) && t >= clock
    ensures HeldAt(gs, t).held == gs[|gs| - 1].held
  {
    var l := |gs| - 1;
    if gs[l].at > t {
      assert gs[l - 1].held == gs[l].held;
      SameHeld(gs[..l], clock, t);
      assert gs[..l][0] == gs[0];
    }
  }

  lemma NoteEnds(gs: seq<Gain>, g: Gain)
    requires gs != [] && (gs[|gs| - 1].at <= g.at || (gs[|gs| - 1].kernel && !g.kernel))
    ensures Note(gs, g) != [] && Note(gs, g)[|Note(gs, g)| - 1].at <= g.at
  {}

  /** What a write may have converted a frame at, at any instant from before its call on, is what the
      log allows: the new value throughout, and until the end of the call any of the old. */
  lemma WriteLogAllows(gs: seq<Gain>, held: Held, value: real, before: real, after: real, t: real, r: real,
                       safe: real, unknownFloor: real)
    requires gs != [] && Copies(gs, before) && before <= after && before <= t
    requires gs[|gs| - 1].held == held && held.Held? && held.lo <= held.hi
    requires r == value || (t < after && held.lo <= r <= held.hi)
    ensures MayApply(HeldAt(WriteLog(gs, held, value, before, after), t), safe, unknownFloor, r)
  {
    var settled := Gain(after, Held(value, value), false);
    if held == Held(value, value) {
      NoteHolds(gs, settled, t);
      SameHeld(gs, before, t);
    } else {
      var wide := Gain(before, Held(Min(held.lo, value), Max(held.hi, value)), false);
      NoteHolds(gs, wide, t);
      NoteEnds(gs, wide);
      NoteHolds(Note(gs, wide), settled, t);
    }
  }
}
