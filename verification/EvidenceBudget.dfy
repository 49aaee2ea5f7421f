/** The budgets' history at a start from evidence (src/boot.rs, `budget_history`). */
module EvidenceBudget {
  import opened Config
  import opened Reals
  import opened Budget
  import opened Signals
  import Evidence

  /** The part of the last minute at the card's safe level: this boot's uptime. */
  function Recent(uptime: real): real {
    Max(0.0, Min(uptime, MINUTE))
  }

  function BudgetHistory(uptime: real, safePower: real, older: real): seq<Entry> {
    var recent := Recent(uptime);
    OlderSteps(uptime, older)
    + (if recent > 0.0 then [Entry(recent, safePower)] else [])
  }

  lemma EnergyOfOne(e: Entry, w: real, full: real)
    requires e.secs > 0.0 && 0.0 <= w <= e.secs
    ensures Energy([e], w, full)
         == if w <= 0.0 then 0.0 else if w < e.secs then Part(e, w, full) else e.Joules()
  {
    assert [e][..0] == [];
  }

  /** A step of known length and energy covers any signal of that length, within full scale and
      with at most that energy, in any window that reaches into it. */
  lemma OlderCovers(len: real, older: real, past: seq<Entry>, w: real, full: real)
    requires len > 0.0 && full > 0.0 && 0.0 <= older && 0.0 <= w <= len
    requires Proper(past) && Within(past, full) && Total(past) == len && Sum(past) <= older
    ensures Truth(past, w) <= Energy([Entry(len, older / len)], w, full)
  {
    var e := Entry(len, older / len);
    DivideTimes(older, len);
    QuotientNonneg(older, len);
    TruthAtMost(past, w, full);
    EnergyOfOne(e, w, full);
  }

  function OlderSteps(uptime: real, older: real): seq<Entry> {
    var len := MINUTE - Recent(uptime);
    if len > 0.0 then [Entry(len, Max(older, 0.0) / len)] else []
  }

  lemma OlderStepsCover(uptime: real, older: real, past: seq<Entry>, w: real, full: real)
    requires full > 0.0 && 0.0 <= older && 0.0 <= w <= MINUTE - Recent(uptime)
    requires Proper(past) && Within(past, full) && Total(past) == MINUTE - Recent(uptime) && Sum(past) <= older
    ensures Truth(past, w) <= Energy(OlderSteps(uptime, older), w, full)
  {
    var len := MINUTE - Recent(uptime);
    if len > 0.0 {
      OlderCovers(len, older, past, w, full);
    }
  }

  /** Whatever a protected past of at most `older` joules was, and whatever came since at no more
      than the safe level, every window of the history holds at least its energy. */
  lemma HistoryCovers(uptime: real, safePower: real, older: real, past: seq<Entry>, since: seq<Entry>, w: real,
                      full: real)
    requires 0.0 <= safePower <= full && full > 0.0 && 0.0 <= older && 0.0 <= w <= MINUTE
    requires Proper(past) && Within(past, full) && Total(past) == MINUTE - Recent(uptime) && Sum(past) <= older
    requires Proper(since) && Within(since, safePower) && Total(since) == Recent(uptime)
    ensures Truth(past + since, w) <= Energy(BudgetHistory(uptime, safePower, older), w, full)
  {
    var recent, front := Recent(uptime), OlderSteps(uptime, older);
    TruthAppend(past, since, w);
    if recent > 0.0 {
      assert BudgetHistory(uptime, safePower, older) == front + [Entry(recent, safePower)];
      if w >= recent {
        OlderStepsCover(uptime, older, past, w - recent, full);
      }
      LastCovers(front, Entry(recent, safePower), past, since, w, full);
    } else {
      assert BudgetHistory(uptime, safePower, older) == front;
      EmptyIsShort(since);
      assert past + since == past;
      OlderStepsCover(uptime, older, past, w, full);
    }
  }

  lemma LastCovers(front: seq<Entry>, last: Entry, past: seq<Entry>, since: seq<Entry>, w: real, full: real)
    requires last.secs > 0.0 && 0.0 <= last.watts <= full && full > 0.0 && 0.0 <= w
    requires Proper(past) && Proper(since) && Within(since, last.watts) && Total(since) == last.secs
    requires w >= last.secs ==> Truth(past, w - last.secs) <= Energy(front, w - last.secs, full)
    ensures Truth(past + since, w) <= Energy(front + [last], w, full)
  {
    TruthAppend(past, since, w);
    SumWithin(since, last.watts);
    assert (front + [last])[..|front|] == front;
    if w < last.secs {
      SinceCovers(last, since, w, full);
      if w == 0.0 { assert Truth(since, w) == 0.0; }
    }
  }

  lemma EmptyIsShort(ps: seq<Entry>)
    requires Proper(ps) && Total(ps) == 0.0
    ensures ps == []
  {
    if ps != [] { TotalNonneg(ps[..|ps| - 1]); }
  }

  lemma SinceCovers(last: Entry, since: seq<Entry>, w: real, full: real)
    requires last.secs > 0.0 && 0.0 <= last.watts <= full && full > 0.0 && 0.0 <= w < last.secs
    requires Proper(since) && Within(since, last.watts) && Total(since) == last.secs
    ensures Truth(since, w) <= Part(last, w, full)
  {
    if last.watts > 0.0 {
      TruthAtMost(since, w, last.watts);
    } else {
      SilentTruth(since, w);
    }
    PartIs(last, w, full);
    TimesOrder(last.watts, w, last.secs);
    TimesLess(w, last.watts, full);
  }

  lemma {:induction false} SilentTruth(ps: seq<Entry>, w: real)
    requires Proper(ps) && Within(ps, 0.0)
    ensures Truth(ps, w) == 0.0
  {
    if ps != [] && w > 0.0 { SilentTruth(ps[..|ps| - 1], w - ps[|ps| - 1].secs); }
  }

  // ---- joined to the energy a protected program can have taken --------------------------------

  /** A program's steps as the power they gave the coil. */
  function Powers(bs: seq<Evidence.Beat>): (ps: seq<Entry>)
    ensures |ps| == |bs|
  {
    if bs == [] then []
    else
      var b := bs[|bs| - 1];
      Powers(bs[..|bs| - 1]) + [Entry(b.dt, b.watts)]
  }

  /** Steps that take time, at no more than full scale. */
  predicate Timed(bs: seq<Evidence.Beat>, full: real) {
    forall i :: 0 <= i < |bs| ==> bs[i].dt > 0.0 && 0.0 <= bs[i].watts <= full
  }

  lemma {:induction false} PowersAre(bs: seq<Evidence.Beat>, full: real)
    requires Timed(bs, full)
    ensures Proper(Powers(bs)) && Within(Powers(bs), full)
    ensures Total(Powers(bs)) == Evidence.Duration(bs) && Sum(Powers(bs)) == Evidence.Energy(bs)
  {
    if bs != [] {
      var l := |bs| - 1;
      PowersAre(bs[..l], full);
      var ps := Powers(bs);
      assert ps[..|ps| - 1] == Powers(bs[..l]) && ps[|ps| - 1] == Entry(bs[l].dt, bs[l].watts);
    }
  }

  /** The joules a start from evidence takes for the rest of the minute before this boot. */
  function Older(s: Spec, limit: real, ta: real, uptime: real, saved: real, full: real): real
    requires ValidSpec(s)
  {
    var len := MINUTE - Recent(uptime);
    Min(Max(Evidence.ProtectedEnergy(s, limit, ta, len), saved), Times(full, len))
  }

  lemma OlderIsEnough(s: Spec, limit: real, ta: real, n: Evidence.State, bs: seq<Evidence.Beat>, uptime: real,
                      saved: real, full: real)
    requires ValidSpec(s) && Timed(bs, full) && full > 0.0
    requires Evidence.Protected(s, limit, ta, n, bs) && Evidence.Gentle(s, bs) && n.coil >= ta && n.magnet >= ta
    requires Evidence.Duration(bs) == MINUTE - Recent(uptime)
    ensures 0.0 <= Sum(Powers(bs)) <= Older(s, limit, ta, uptime, saved, full)
  {
    PowersAre(bs, full);
    SumWithin(Powers(bs), full);
    SumNonneg(Powers(bs));
    var len := MINUTE - Recent(uptime);
    if len > 0.0 {
      Evidence.EnergyUnderProtected(s, limit, ta, n, bs, len);
    } else {
      EmptyIsShort(Powers(bs));
    }
  }

  /** A start from evidence has every energy there can have been in the minute before it: any program
      that kept the coil under its limit up to this boot, and anything at the safe level since. */
  lemma ProtectedPastIsCovered(s: Spec, limit: real, ta: real, n: Evidence.State, bs: seq<Evidence.Beat>,
                               uptime: real, saved: real, safePower: real, since: seq<Entry>, w: real, full: real)
    requires ValidSpec(s) && Timed(bs, full) && full > 0.0 && 0.0 <= safePower <= full && 0.0 <= w <= MINUTE
    requires Evidence.Protected(s, limit, ta, n, bs) && Evidence.Gentle(s, bs) && n.coil >= ta && n.magnet >= ta
    requires Evidence.Duration(bs) == MINUTE - Recent(uptime)
    requires Proper(since) && Within(since, safePower) && Total(since) == Recent(uptime)
    ensures Truth(Powers(bs) + since, w)
         <= Energy(BudgetHistory(uptime, safePower, Older(s, limit, ta, uptime, saved, full)), w, full)
  {
    hide Evidence.Protected, Evidence.Gentle, Truth, Energy, BudgetHistory, Older;
    PowersAre(bs, full);
    OlderIsEnough(s, limit, ta, n, bs, uptime, saved, full);
    HistoryCovers(uptime, safePower, Older(s, limit, ta, uptime, saved, full), Powers(bs), since, w, full);
  }
}
