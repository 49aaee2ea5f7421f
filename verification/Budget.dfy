/** The power budgets' history (src/model.rs, `record_pre`, `mean_power`, `resume`): one minute
    of (seconds, watts before the gain), newest last, trimmed as it grows. */
module Budget {
  import opened Reals

  const MINUTE := 60.0

  datatype Entry = Entry(secs: real, watts: real) {
    function Joules(): real { Times(watts, secs) }
  }

  lemma TimesOrder(x: real, v: real, w: real)
    requires x >= 0.0 && v <= w
    ensures Times(x, v) <= Times(x, w)
  {
    ScaleOrder(x, v, w);
  }

  lemma TimesNonneg(x: real, w: real)
    requires x >= 0.0 && w >= 0.0
    ensures Times(x, w) >= 0.0
  {
    Nonneg(x, w);
  }

  lemma TimesLess(d: real, x: real, y: real)
    requires d >= 0.0 && x <= y
    ensures Times(x, d) <= Times(y, d)
  {
    ScaleOrder(d, x, y);
  }

  ghost predicate Proper(h: seq<Entry>) {
    forall i :: 0 <= i < |h| ==> h[i].secs > 0.0 && h[i].watts >= 0.0
  }

  /** Nothing before the gain is louder than full scale. */
  ghost predicate Within(h: seq<Entry>, full: real) {
    forall i :: 0 <= i < |h| ==> h[i].watts <= full
  }

  function Total(h: seq<Entry>): real {
    if h == [] then 0.0 else Total(h[..|h| - 1]) + h[|h| - 1].secs
  }

  /** What a window covering the last `w` seconds of a step takes of it: all of its energy may
      lie there, as much of it as full scale fits. */
  function Part(e: Entry, w: real, full: real): real {
    Max(Min(e.Joules(), Times(full, w)), Times(e.watts, w))
  }

  /** The energy the history holds for the last `w` seconds. */
  function Energy(h: seq<Entry>, w: real, full: real): real {
    if h == [] || w <= 0.0 then 0.0
    else
      var e := h[|h| - 1];
      if w < e.secs then Part(e, w, full)
      else e.Joules() + Energy(h[..|h| - 1], w - e.secs, full)
  }

  // ---- the loops ----------------------------------------------------------------------------

  method WindowEnergy(h: seq<Entry>, seconds: real, full: real) returns (e: real)
    ensures e == Energy(h, seconds, full)
  {
    var t := 0.0;
    e := 0.0;
    var i := |h|;
    assert h[..i] == h;
    while i > 0 && t < seconds
      invariant 0 <= i <= |h|
      invariant e + Energy(h[..i], seconds - t, full) == Energy(h, seconds, full)
    {
      var step := h[i - 1];
      assert h[..i][..i - 1] == h[..i - 1];
      var take := Min(step.secs, seconds - t);
      e := e + if take < step.secs then Part(step, take, full) else step.Joules();
      t := t + take;
      i := i - 1;
    }
  }

  /** The power of a step squeezed into `d` seconds: its energy may all lie there, as much of it as
      full scale fits. */
  function Squeezed(e: Entry, d: real, full: real): real
    requires d > 0.0
  {
    Max(Min(e.Joules(), Times(full, d)) / d, e.watts)
  }

  /** The oldest step less its first `excess` seconds. */
  function Shrunk(e: Entry, excess: real, full: real): Entry
    requires 0.0 <= excess < e.secs
  {
    Entry(e.secs - excess, Squeezed(e, e.secs - excess, full))
  }

  /** Only the last minute: whole steps dropped, then the expired part of the oldest. */
  function Trim(h: seq<Entry>, full: real): seq<Entry> {
    if h == [] || Total(h) <= MINUTE then h
    else if h[0].secs <= Total(h) - MINUTE then Trim(h[1..], full)
    else [Shrunk(h[0], Total(h) - MINUTE, full)] + h[1..]
  }

  /** A step recorded: never more than full scale, then trimmed. */
  function Record(h: seq<Entry>, e: Entry, full: real): seq<Entry> {
    Trim(h + [Entry(e.secs, Min(e.watts, full))], full)
  }

  lemma {:induction false} TotalTail(h: seq<Entry>)
    requires h != []
    ensures Total(h) == h[0].secs + Total(h[1..])
  {
    if |h| > 1 {
      TotalTail(h[..|h| - 1]);
      assert h[..|h| - 1][1..] == h[1..][..|h| - 2];
    }
  }

  lemma {:induction false} TotalNonneg(h: seq<Entry>)
    requires Proper(h)
    ensures Total(h) >= 0.0
  {
    if h != [] { TotalNonneg(h[..|h| - 1]); }
  }

  // ---- trimming is invisible -------------------------------------------------------------------

  lemma {:induction false} DropFront(h: seq<Entry>, w: real, full: real)
    requires h != [] && Proper(h) && w <= Total(h[1..])
    ensures Energy(h, w, full) == Energy(h[1..], w, full)
  {
    if |h| > 1 && w > 0.0 {
      var l := |h| - 1;
      assert h[..l][1..] == h[1..][..l - 1];
      if w >= h[l].secs {
        DropFront(h[..l], w - h[l].secs, full);
      }
    }
  }

  lemma SqueezedIs(e: Entry, d: real, full: real)
    requires e.watts >= 0.0 && full > 0.0 && 0.0 < d < e.secs
    ensures var q := Squeezed(e, d, full);
      && Times(q, d) == Part(e, d, full) && q >= 0.0
      && (e.watts <= full ==> q <= full)
      && (e.watts > full ==> q == e.watts)
  {
    var m := Min(e.Joules(), Times(full, d));
    DivideTimes(m, d);
    TimesOrder(e.watts, d, e.secs);
    if e.watts <= full {
      TimesLess(d, e.watts, full);
      SqueezedTerms(m, d, e.watts, full);
    } else {
      TimesLess(d, full, e.watts);
      TimesOrder(full, 0.0, d);
      TimesOrder(e.watts, 0.0, e.secs);
      SqueezedTerms(m, d, 0.0, e.watts);
    }
  }

  /** Energy between two powers' over `d` seconds is a power between them. */
  lemma SqueezedTerms(m: real, d: real, p: real, q: real)
    requires d > 0.0 && Times(p, d) <= m <= Times(q, d)
    ensures p <= m / d <= q
  {
    DivideTimes(m, d);
    Unscale(d, p, m / d);
    Unscale(d, m / d, q);
  }

  /** A step within full scale gives a window what fits of its energy; one over it (an older
      file's) gives it its share. */
  lemma PartIs(e: Entry, w: real, full: real)
    requires e.watts >= 0.0 && full > 0.0 && 0.0 <= w <= e.secs
    ensures e.watts <= full ==> Part(e, w, full) == Min(e.Joules(), Times(full, w))
    ensures e.watts > full ==> Part(e, w, full) == Times(e.watts, w)
  {
    if e.watts <= full {
      TimesOrder(e.watts, w, e.secs);
      TimesLess(w, e.watts, full);
    } else {
      TimesLess(w, full, e.watts);
    }
  }

  lemma MinOfMin(a: real, b: real, c: real)
    requires c <= b
    ensures Min(Min(a, b), c) == Min(a, c)
  {}

  /** The shrunk step holds what the whole one gave the window it still covers. */
  lemma ShrunkKeeps(e: Entry, excess: real, full: real)
    requires e.watts >= 0.0 && full > 0.0 && 0.0 < excess < e.secs
    ensures var r := Shrunk(e, excess, full);
      && r.secs == e.secs - excess && r.watts >= 0.0
      && r.Joules() == Part(e, r.secs, full)
      && (e.watts <= full ==> r.watts <= full)
      && (e.watts > full ==> r.watts == e.watts)
  {
    SqueezedIs(e, e.secs - excess, full);
  }


  /** For any window inside what is left of it, the shrunk step says what the whole one said. */
  lemma ShrunkPart(e: Entry, excess: real, w: real, full: real)
    requires e.watts >= 0.0 && full > 0.0 && 0.0 < excess < e.secs
    requires 0.0 < w < e.secs - excess
    ensures Part(Shrunk(e, excess, full), w, full) == Part(e, w, full)
  {
    var r := Shrunk(e, excess, full);
    ShrunkKeeps(e, excess, full);
    PartIs(r, w, full);
    PartIs(e, w, full);
    if e.watts <= full {
      PartIs(e, r.secs, full);
      TimesOrder(full, w, r.secs);
      MinOfMin(e.Joules(), Times(full, r.secs), Times(full, w));
    }
  }

  lemma {:induction false} ShrinkFront(h: seq<Entry>, excess: real, w: real, full: real)
    requires h != [] && Proper(h) && full > 0.0 && 0.0 < excess < h[0].secs
    requires w <= h[0].secs - excess + Total(h[1..])
    ensures Energy([Shrunk(h[0], excess, full)] + h[1..], w, full) == Energy(h, w, full)
  {
    var r := Shrunk(h[0], excess, full);
    var g := [r] + h[1..];
    var l := |h| - 1;
    if w > 0.0 {
      if l == 0 {
        ShrunkKeeps(h[0], excess, full);
        if w < r.secs { ShrunkPart(h[0], excess, w, full); }
        assert Energy(g[..0], w - r.secs, full) == 0.0;
      } else {
        assert g[..l] == [r] + h[..l][1..];
        assert h[..l][1..] == h[1..][..l - 1];
        assert g[l] == h[l];
        if w >= h[l].secs {
          ShrinkFront(h[..l], excess, w - h[l].secs, full);
        }
      }
    }
  }

  /** Trimming changes nothing any window of up to a minute can see. */
  lemma {:induction false} TrimIsInvisible(h: seq<Entry>, w: real, full: real)
    requires Proper(h) && full > 0.0 && w <= MINUTE
    ensures Energy(Trim(h, full), w, full) == Energy(h, w, full)
  {
    if h != [] && Total(h) > MINUTE {
      TotalTail(h);
      if h[0].secs <= Total(h) - MINUTE {
        TrimIsInvisible(h[1..], w, full);
        DropFront(h, w, full);
      } else {
        ShrinkFront(h, Total(h) - MINUTE, w, full);
      }
    }
  }

  /** What is left is a proper history of at most a minute. */
  lemma {:induction false} TrimKeeps(h: seq<Entry>, full: real)
    requires Proper(h) && full > 0.0
    ensures Proper(Trim(h, full))
    ensures Within(h, full) ==> Within(Trim(h, full), full)
    ensures Total(Trim(h, full)) == Min(Total(h), MINUTE)
  {
    if h != [] && Total(h) > MINUTE {
      TotalTail(h);
      if h[0].secs <= Total(h) - MINUTE {
        TrimKeeps(h[1..], full);
      } else {
        ShrunkKeeps(h[0], Total(h) - MINUTE, full);
        var g := [Shrunk(h[0], Total(h) - MINUTE, full)] + h[1..];
        TotalTail(g);
        assert g[1..] == h[1..];
      }
    }
  }

  // ---- one history over another ----------------------------------------------------------------

  /** `h` holds at least the energy of `g` in every window of up to a minute. */
  ghost predicate Covers(h: seq<Entry>, g: seq<Entry>, full: real) {
    forall w :: 0.0 <= w <= MINUTE ==> Energy(g, w, full) <= Energy(h, w, full)
  }

  lemma RecordedEnergy(h: seq<Entry>, e: Entry, w: real, full: real)
    requires Proper(h) && e.secs > 0.0 && e.watts >= 0.0 && full > 0.0 && w <= MINUTE
    ensures var r := Entry(e.secs, Min(e.watts, full));
      Energy(Record(h, e, full), w, full)
        == if w <= 0.0 then 0.0 else if w < r.secs then Part(r, w, full) else r.Joules() + Energy(h, w - r.secs, full)
  {
    var r := Entry(e.secs, Min(e.watts, full));
    TrimIsInvisible(h + [r], w, full);
    assert (h + [r])[..|h|] == h;
  }

  lemma RecordKeeps(h: seq<Entry>, e: Entry, full: real)
    requires Proper(h) && e.secs > 0.0 && e.watts >= 0.0 && full > 0.0
    ensures Proper(Record(h, e, full))
    ensures Within(h, full) ==> Within(Record(h, e, full), full)
  {
    TrimKeeps(h + [Entry(e.secs, Min(e.watts, full))], full);
  }

  function RecordAll(h: seq<Entry>, es: seq<Entry>, full: real): seq<Entry> {
    if es == [] then h else Record(RecordAll(h, es[..|es| - 1], full), es[|es| - 1], full)
  }

  /** The same steps, none ever trimmed: each within full scale. */
  function Untrimmed(es: seq<Entry>, full: real): (r: seq<Entry>)
    ensures |r| == |es|
  {
    if es == [] then []
    else
      var e := es[|es| - 1];
      Untrimmed(es[..|es| - 1], full) + [Entry(e.secs, Min(e.watts, full))]
  }

  lemma LastEntry(h: seq<Entry>, r: Entry, w: real, full: real)
    ensures Energy(h + [r], w, full)
         == if w <= 0.0 then 0.0 else if w < r.secs then Part(r, w, full) else r.Joules() + Energy(h, w - r.secs, full)
  {
    assert (h + [r])[..|h|] == h;
  }

  lemma UntrimmedLast(h: seq<Entry>, es: seq<Entry>, full: real)
    requires es != []
    ensures var e := es[|es| - 1];
      h + Untrimmed(es, full) == h + Untrimmed(es[..|es| - 1], full) + [Entry(e.secs, Min(e.watts, full))]
  {}

  lemma UntrimmedNone(h: seq<Entry>, full: real)
    ensures h + Untrimmed([], full) == h
  {}

  lemma ProperLast(h: seq<Entry>, r: Entry)
    requires Proper(h) && r.secs > 0.0 && r.watts >= 0.0
    ensures Proper(h + [r])
  {}

  /** Over a whole run: whatever was trimmed on the way, every window of up to a minute holds exactly
      the energy of the record that nothing was ever trimmed from. */
  lemma {:induction false} TrimmedRunIsWhole(h: seq<Entry>, es: seq<Entry>, w: real, full: real)
    requires Proper(h) && full > 0.0 && w <= MINUTE
    requires forall i :: 0 <= i < |es| ==> es[i].secs > 0.0 && es[i].watts >= 0.0
    ensures Proper(RecordAll(h, es, full)) && Proper(h + Untrimmed(es, full))
    ensures Energy(RecordAll(h, es, full), w, full) == Energy(h + Untrimmed(es, full), w, full)
  {
    hide Energy, Record, Proper, Part, Untrimmed;
    if es == [] {
      UntrimmedNone(h, full);
    } else {
      var front, e := es[..|es| - 1], es[|es| - 1];
      var r := Entry(e.secs, Min(e.watts, full));
      TrimmedRunIsWhole(h, front, w - e.secs, full);
      RecordedEnergy(RecordAll(h, front, full), e, w, full);
      RecordKeeps(RecordAll(h, front, full), e, full);
      UntrimmedLast(h, es, full);
      ProperLast(h + Untrimmed(front, full), r);
      LastEntry(h + Untrimmed(front, full), r, w, full);
    }
  }

  lemma CoversOneMore(h: seq<Entry>, g: seq<Entry>, e: Entry, w: real, full: real)
    requires Proper(h) && Proper(g) && e.secs > 0.0 && e.watts >= 0.0 && full > 0.0 && 0.0 <= w <= MINUTE
    requires Covers(h, g, full)
    ensures Energy(Record(g, e, full), w, full) <= Energy(Record(h, e, full), w, full)
  {
    RecordedEnergy(h, e, w, full);
    RecordedEnergy(g, e, w, full);
  }

  /** A history that covers another keeps covering it through any later steps, trimming and all. */
  lemma {:induction false} CoversForEver(h: seq<Entry>, g: seq<Entry>, es: seq<Entry>, full: real)
    requires Proper(h) && Proper(g) && Proper(es) && full > 0.0 && Covers(h, g, full)
    ensures Proper(RecordAll(h, es, full)) && Proper(RecordAll(g, es, full))
    ensures Covers(RecordAll(h, es, full), RecordAll(g, es, full), full)
  {
    if es != [] {
      var l := |es| - 1;
      CoversForEver(h, g, es[..l], full);
      var hh, gg := RecordAll(h, es[..l], full), RecordAll(g, es[..l], full);
      RecordKeeps(hh, es[l], full);
      RecordKeeps(gg, es[l], full);
      forall w | 0.0 <= w <= MINUTE
        ensures Energy(RecordAll(g, es, full), w, full) <= Energy(RecordAll(h, es, full), w, full)
      {
        CoversOneMore(hh, gg, es[l], w, full);
      }
    }
  }

  // ---- how fast a window's energy can grow -------------------------------------------------------

  lemma PartGrows(e: Entry, v: real, w: real, full: real)
    requires 0.0 <= e.watts <= full && full > 0.0 && 0.0 <= v <= w <= e.secs
    ensures 0.0 <= Part(e, v, full) <= Part(e, w, full) <= Part(e, v, full) + Times(full, w - v)
    ensures Part(e, w, full) <= Times(full, w)
    ensures w == e.secs ==> Part(e, w, full) == e.Joules()
  {
    PartIs(e, v, full);
    PartIs(e, w, full);
    SumTimes(full, v, w - v, w);
    TimesOrder(full, 0.0, w - v);
    TimesOrder(full, 0.0, v);
    TimesOrder(e.watts, 0.0, e.secs);
    TimesLess(e.secs, e.watts, full);
  }

  /** A longer window never holds less, and at most full scale more. */
  lemma {:induction false} EnergyGrows(h: seq<Entry>, v: real, w: real, full: real)
    requires Proper(h) && Within(h, full) && full > 0.0 && 0.0 <= v <= w
    ensures 0.0 <= Energy(h, v, full) <= Energy(h, w, full) <= Energy(h, v, full) + Times(full, w - v)
  {
    hide Times;
    if h == [] || w == 0.0 {
      TimesNonneg(full, w - v);
    } else {
      var l := |h| - 1;
      var e, front := h[l], h[..l];
      if w <= e.secs {
        EnergyInside(h, v, full);
        EnergyInside(h, w, full);
        PartGrows(e, v, w, full);
      } else if v >= e.secs {
        EnergyGrows(front, v - e.secs, w - e.secs, full);
        TimesNonneg(e.watts, e.secs);
      } else {
        EnergyInside(h, v, full);
        PartGrows(e, v, e.secs, full);
        EnergyGrows(front, 0.0, w - e.secs, full);
        SumTimes(full, e.secs - v, w - e.secs, w - v);
      }
    }
  }

  lemma SumTimes(full: real, a: real, b: real, c: real)
    requires c == a + b
    ensures Times(full, c) == Times(full, a) + Times(full, b)
  {}

  /** A window inside the newest step. */
  lemma EnergyInside(h: seq<Entry>, w: real, full: real)
    requires h != [] && Proper(h) && Within(h, full) && full > 0.0 && 0.0 <= w <= h[|h| - 1].secs
    ensures Energy(h, w, full) == Part(h[|h| - 1], w, full)
  {
    var e := h[|h| - 1];
    PartGrows(e, 0.0, w, full);
    if w == e.secs {
      assert Energy(h[..|h| - 1], w - e.secs, full) == 0.0;
    }
  }

  // ---- a restart's history -----------------------------------------------------------------------

  /** The rest of the minute's energy, at full scale if it fits in the rest of the minute. */
  function OlderStep(older: real, full: real): seq<Entry>
    requires full > 0.0
  {
    var d := Min(older / full, MINUTE - 1.0);
    if older > 0.0 && d > 0.0 then [Entry(d, older / d)] else []
  }

  function Silence(last: real, full: real): seq<Entry>
    requires full > 0.0
  {
    var d := Min(last / full, 1.0);
    if d < 1.0 then [Entry(1.0 - d, 0.0)] else []
  }

  function LastStep(last: real, full: real): seq<Entry>
    requires full > 0.0
  {
    var d := Min(last / full, 1.0);
    if last > 0.0 && d > 0.0 then [Entry(d, last / d)] else []
  }

  /** The history rebuilt from the energies of the last second and of the rest of the minute:
      each as late as full scale lets it be. */
  function Resumed(last: real, older: real, full: real): seq<Entry>
    requires full > 0.0
  {
    OlderStep(older, full) + Silence(last, full) + LastStep(last, full)
  }

  /** Energy `e` at full scale, and how long it takes. */
  lemma AtFullScale(e: real, full: real)
    requires full > 0.0 && e > 0.0
    ensures e / full > 0.0 && e / (e / full) == full && Times(full, e / full) == e
  {
    DivideTimes(e, full);
    DivideOrder(e, 0.0, full);
    DivideTimes(e, e / full);
    Cancel(e / full, e / (e / full), full);
  }

  lemma OlderStepIs(older: real, full: real)
    requires full > 0.0 && 0.0 <= older <= Times(full, MINUTE - 1.0)
    ensures OlderStep(older, full) == if older > 0.0 then [Entry(older / full, full)] else []
    ensures Proper(OlderStep(older, full))
  {
    DivideOrder(older, MINUTE - 1.0, full);
    if older > 0.0 { AtFullScale(older, full); }
  }

  lemma LastStepsAre(last: real, full: real)
    requires full > 0.0 && 0.0 <= last <= full
    ensures LastStep(last, full) == if last > 0.0 then [Entry(last / full, full)] else []
    ensures Silence(last, full) == if last < full then [Entry(1.0 - last / full, 0.0)] else []
    ensures Proper(LastStep(last, full)) && Proper(Silence(last, full))
  {
    DivideOrder(last, 1.0, full);
    if last > 0.0 { AtFullScale(last, full); }
    if last < full { LessThanWhole(last, full); } else { SelfQuotient(full); }
  }

  lemma LessThanWhole(x: real, full: real)
    requires full > 0.0 && x < full
    ensures x / full < 1.0
  {
    DivideTimes(x, full);
    if x / full >= 1.0 { ScaleOrder(full, 1.0, x / full); }
  }

  lemma FullPart(d: real, w: real, full: real)
    requires full > 0.0 && 0.0 <= w <= d
    ensures Part(Entry(d, full), w, full) == Times(full, w)
  {
    PartIs(Entry(d, full), w, full);
    TimesOrder(full, w, d);
  }

  lemma SilentPart(d: real, w: real, full: real)
    requires full > 0.0 && 0.0 <= w <= d
    ensures Part(Entry(d, 0.0), w, full) == 0.0
  {
    PartIs(Entry(d, 0.0), w, full);
    TimesOrder(full, 0.0, w);
  }

  /** What the rebuilt history holds: at the window's start every joule that can have come. */
  lemma ResumedEnergy(last: real, older: real, w: real, full: real)
    requires full > 0.0 && 0.0 <= last <= full && 0.0 <= older <= Times(full, MINUTE - 1.0)
    requires 0.0 <= w <= MINUTE
    ensures Energy(Resumed(last, older, full), w, full)
         == if w <= 1.0 then Min(last, Times(full, w)) else last + Min(older, Times(full, w - 1.0))
  {
    OlderStepIs(older, full);
    LastStepsAre(last, full);
    LastEnergy(OlderStep(older, full) + Silence(last, full), LastStep(last, full), last, w, full);
    ShortTime(last, w, full);
    if w > last / full {
      SilentEnergy(OlderStep(older, full), Silence(last, full), last, w - last / full, full);
      if w > 1.0 { OlderEnergy(OlderStep(older, full), older, w - 1.0, full); }
    }
  }

  lemma ShortTime(last: real, w: real, full: real)
    requires full > 0.0 && 0.0 <= last <= full
    ensures last / full <= 1.0
    ensures w <= last / full ==> Times(full, w) <= last
    ensures w > last / full ==> Times(full, w) >= last
  {
    DivideTimes(last, full);
    DivideOrder(last, 1.0, full);
    if w <= last / full { ScaleOrder(full, w, last / full); } else { ScaleOrder(full, last / full, w); }
  }

  lemma LastEnergy(front: seq<Entry>, l: seq<Entry>, last: real, w: real, full: real)
    requires full > 0.0 && 0.0 <= last && 0.0 <= w
    requires if last > 0.0 then l == [Entry(last / full, full)] else l == []
    ensures w <= last / full ==> Energy(front + l, w, full) == Times(full, w)
    ensures w > last / full ==> Energy(front + l, w, full) == last + Energy(front, w - last / full, full)
  {
    if last > 0.0 {
      AtFullScale(last, full);
      var h := front + l;
      assert h[..|h| - 1] == front;
      if w > 0.0 && w <= last / full { FullPart(last / full, w, full); }
    } else {
      assert front + l == front;
      DivideTimes(0.0, full);
    }
  }

  lemma SilentEnergy(front: seq<Entry>, s: seq<Entry>, last: real, w: real, full: real)
    requires full > 0.0 && 0.0 <= last <= full && 0.0 < w
    requires if last < full then s == [Entry(1.0 - last / full, 0.0)] else s == []
    ensures w <= 1.0 - last / full ==> Energy(front + s, w, full) == 0.0
    ensures w > 1.0 - last / full ==> Energy(front + s, w, full) == Energy(front, w - (1.0 - last / full), full)
  {
    if last < full {
      LessThanWhole(last, full);
      var h := front + s;
      assert h[..|h| - 1] == front;
      if w <= 1.0 - last / full { SilentPart(1.0 - last / full, w, full); }
    } else {
      assert front + s == front;
      SelfQuotient(full);
    }
  }

  lemma OlderEnergy(o: seq<Entry>, older: real, w: real, full: real)
    requires full > 0.0 && 0.0 <= older && 0.0 < w
    requires if older > 0.0 then o == [Entry(older / full, full)] else o == []
    ensures Energy(o, w, full) == Min(older, Times(full, w))
  {
    TimesOrder(full, 0.0, w);
    if older > 0.0 {
      AtFullScale(older, full);
      assert o[..0] == [];
      if w < older / full {
        FullPart(older / full, w, full);
        TimesOrder(full, w, older / full);
      } else {
        TimesOrder(full, older / full, w);
      }
    }
  }

  lemma ResumeCoversAt(h: seq<Entry>, last: real, older: real, w: real, full: real)
    requires Proper(h) && Within(h, full) && full > 0.0 && 0.0 <= w <= MINUTE
    requires last == Energy(h, 1.0, full) && older == Energy(h, MINUTE, full) - last
    requires 0.0 <= last <= full && 0.0 <= older <= Times(full, MINUTE - 1.0)
    ensures Energy(h, w, full) <= Energy(Resumed(last, older, full), w, full)
  {
    ResumedEnergy(last, older, w, full);
    if w <= 1.0 {
      EnergyGrows(h, 0.0, w, full);
      EnergyGrows(h, w, 1.0, full);
    } else {
      EnergyGrows(h, 1.0, w, full);
      EnergyGrows(h, w, MINUTE, full);
    }
  }

  /** A history rebuilt from a live one's exact one-second and one-minute means holds at least
      its energy in every window of up to a minute: nothing expires early. */
  lemma ResumeCovers(h: seq<Entry>, full: real)
    requires Proper(h) && Within(h, full) && full > 0.0
    ensures var last := Energy(h, 1.0, full); var r := Resumed(last, Energy(h, MINUTE, full) - last, full);
      Proper(r) && Covers(r, h, full)
  {
    var last := Energy(h, 1.0, full);
    var older := Energy(h, MINUTE, full) - last;
    EnergyGrows(h, 0.0, 1.0, full);
    EnergyGrows(h, 1.0, MINUTE, full);
    OlderStepIs(older, full);
    LastStepsAre(last, full);
    forall w | 0.0 <= w <= MINUTE
      ensures Energy(h, w, full) <= Energy(Resumed(last, older, full), w, full)
    {
      ResumeCoversAt(h, last, older, w, full);
    }
  }

  /** So restored budgets never ask for less than the live ones would have, however long both go on. */
  lemma RestoredBudgetsCover(h: seq<Entry>, later: seq<Entry>, full: real)
    requires Proper(h) && Within(h, full) && Proper(later) && full > 0.0
    ensures var last := Energy(h, 1.0, full); var r := Resumed(last, Energy(h, MINUTE, full) - last, full);
      Covers(RecordAll(r, later, full), RecordAll(h, later, full), full)
  {
    ResumeCovers(h, full);
    var last := Energy(h, 1.0, full);
    CoversForEver(Resumed(last, Energy(h, MINUTE, full) - last, full), h, later, full);
  }
}
