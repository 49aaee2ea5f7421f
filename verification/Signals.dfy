/** What the budgets must never fall short of: the energy of the signal itself, however it was
    spread inside the steps that recorded it. */
module Signals {
  import opened Reals
  import opened Budget

  /** A signal's energy over a stretch of pieces. */
  function Sum(ps: seq<Entry>): real {
    if ps == [] then 0.0 else Sum(ps[..|ps| - 1]) + ps[|ps| - 1].Joules()
  }

  /** The exact energy of the last `w` seconds. */
  function Truth(ps: seq<Entry>, w: real): real {
    if ps == [] || w <= 0.0 then 0.0
    else
      var p := ps[|ps| - 1];
      if w < p.secs then Times(p.watts, w) else p.Joules() + Truth(ps[..|ps| - 1], w - p.secs)
  }

  /** What a step covered: its pieces last as long, carry at most its energy, and are within full scale. */
  ghost predicate Recorded(e: Entry, ps: seq<Entry>, full: real) {
    && e.secs > 0.0 && e.watts >= 0.0
    && Proper(ps) && Within(ps, full)
    && Total(ps) == e.secs && Sum(ps) <= e.Joules()
  }

  function Flatten(signal: seq<seq<Entry>>): seq<Entry> {
    if signal == [] then [] else Flatten(signal[..|signal| - 1]) + signal[|signal| - 1]
  }

  lemma {:induction false} TruthAppend(a: seq<Entry>, b: seq<Entry>, w: real)
    requires Proper(a) && Proper(b)
    ensures w >= Total(b) ==> Truth(a + b, w) == Sum(b) + Truth(a, w - Total(b))
    ensures w < Total(b) ==> Truth(a + b, w) == Truth(b, w)
  {
    TotalNonneg(b);
    if b == [] {
      assert a + b == a;
    } else {
      var l := |b| - 1;
      TotalNonneg(b[..l]);
      assert (a + b)[..|a + b| - 1] == a + b[..l];
      TruthAppend(a, b[..l], w - b[l].secs);
    }
  }

  /** The last `w` seconds of the pieces carry at most all of their energy, and at most full scale. */
  lemma {:induction false} TruthAtMost(ps: seq<Entry>, w: real, full: real)
    requires Proper(ps) && Within(ps, full) && full > 0.0 && w >= 0.0
    ensures 0.0 <= Truth(ps, w) <= Sum(ps)
    ensures Truth(ps, w) <= Times(full, w)
  {
    if ps != [] && w > 0.0 {
      var l := |ps| - 1;
      SumNonneg(ps[..l]);
      PieceInside(ps[l], Min(w, ps[l].secs), full);
      if w >= ps[l].secs {
        TruthAtMost(ps[..l], w - ps[l].secs, full);
        SumTimes(full, ps[l].secs, w - ps[l].secs, w);
      }
    } else {
      SumNonneg(ps);
      TimesOrder(full, 0.0, w);
    }
  }

  lemma PieceInside(p: Entry, w: real, full: real)
    requires 0.0 <= p.watts <= full && 0.0 <= w <= p.secs
    ensures 0.0 <= Times(p.watts, w) <= p.Joules()
    ensures Times(p.watts, w) <= Times(full, w)
  {
    TimesOrder(p.watts, 0.0, w);
    TimesOrder(p.watts, w, p.secs);
    TimesLess(w, p.watts, full);
  }

  lemma {:induction false} SumNonneg(ps: seq<Entry>)
    requires Proper(ps)
    ensures Sum(ps) >= 0.0
  {
    if ps != [] {
      SumNonneg(ps[..|ps| - 1]);
      TimesOrder(ps[|ps| - 1].watts, 0.0, ps[|ps| - 1].secs);
    }
  }

  lemma {:induction false} SumWithin(ps: seq<Entry>, full: real)
    requires Proper(ps) && Within(ps, full)
    ensures Sum(ps) <= Times(full, Total(ps))
  {
    if ps != [] {
      var l := |ps| - 1;
      SumWithin(ps[..l], full);
      TimesLess(ps[l].secs, ps[l].watts, full);
      SumTimes(full, Total(ps[..l]), ps[l].secs, Total(ps));
    }
  }

  lemma {:induction false} FlattenProper(signal: seq<seq<Entry>>, es: seq<Entry>, full: real)
    requires |signal| == |es| && forall i :: 0 <= i < |es| ==> Recorded(es[i], signal[i], full)
    ensures Proper(Flatten(signal)) && Within(Flatten(signal), full)
    ensures Proper(es)
    ensures full > 0.0 ==> Proper(RecordAll([], es, full))
  {
    if es != [] {
      var l := |es| - 1;
      FlattenProper(signal[..l], es[..l], full);
      if full > 0.0 { RecordKeeps(RecordAll([], es[..l], full), es[l], full); }
    }
  }

  /** One step: the recorded window holds at least the signal's, whole or in part. */
  lemma StepCovers(e: Entry, ps: seq<Entry>, w: real, full: real)
    requires Recorded(e, ps, full) && full > 0.0 && w >= 0.0
    ensures var r := Entry(e.secs, Min(e.watts, full));
      && Sum(ps) <= r.Joules()
      && (w < r.secs ==> Truth(ps, w) <= Part(r, w, full))
  {
    SumWithin(ps, full);
    TruthAtMost(ps, w, full);
    var r := Entry(e.secs, Min(e.watts, full));
    assert r.Joules() == e.Joules() || r.Joules() == Times(full, e.secs);
    if w < r.secs { PartIs(r, w, full); }
  }

  /** Every window of up to a minute of the recorded, trimmed history holds at least the energy
      the signal really had in it, wherever inside each step it came. */
  lemma {:induction false} RecordedCoversTruth(es: seq<Entry>, signal: seq<seq<Entry>>, w: real, full: real)
    requires |signal| == |es| && forall i :: 0 <= i < |es| ==> Recorded(es[i], signal[i], full)
    requires full > 0.0 && 0.0 <= w <= MINUTE
    ensures Truth(Flatten(signal), w) <= Energy(RecordAll([], es, full), w, full)
  {
    if es != [] && w > 0.0 {
      var l := |es| - 1;
      var e, ps := es[l], signal[l];
      FlattenProper(signal[..l], es[..l], full);
      TruthAppend(Flatten(signal[..l]), ps, w);
      RecordedEnergy(RecordAll([], es[..l], full), e, w, full);
      StepCovers(e, ps, w, full);
      if w >= e.secs {
        RecordedCoversTruth(es[..l], signal[..l], w - e.secs, full);
      }
    }
  }
}
