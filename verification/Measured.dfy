/** What measured frames promise of the budgets (src/guard.rs, `measure_shifted`): the run they are credited
    with holds at least the energy before the gain of what truly played in the span, wherever between the
    two clock reads the frames ended. */
module Measured {
  import opened Config
  import opened Curves
  import opened Reals
  import opened Budget
  import opened Signals
  import Bank
  import Speaker
  import Domination
  import PartCredit
  import Placement

  /** The signal of the frames in a stretch of frame positions, the frames at its ends in part. */
  function Pieces(src: seq<real>, from: real, to: real, rate: real): seq<Entry>
    requires rate > 0.0
  {
    if src == [] then []
    else
      var l := |src| - 1;
      Pieces(src[..l], from, to, rate)
      + if Placement.Overlap(l, from, to) > 0.0 then [Entry(Placement.Overlap(l, from, to) / rate, src[l])] else []
  }

  /** The frames of the stretch have no more power than these. */
  ghost predicate Under(src: seq<real>, q: seq<real>, from: real, to: real) {
    && |src| == |q|
    && forall i :: 0 <= i < |src| && Placement.Overlap(i, from, to) > 0.0 ==> 0.0 <= src[i] <= q[i]
  }

  /** No frame of it is over full scale. */
  ghost predicate AtMostFull(q: seq<real>, full: real) {
    forall i :: 0 <= i < |q| ==> q[i] <= full
  }

  lemma {:induction false} PiecesAre(src: seq<real>, q: seq<real>, from: real, to: real, rate: real, full: real)
    requires rate > 0.0 && Under(src, q, from, to) && AtMostFull(q, full)
    ensures Proper(Pieces(src, from, to, rate)) && Within(Pieces(src, from, to, rate), full)
  {
    if src != [] {
      var l := |src| - 1;
      PiecesAre(src[..l], q[..l], from, to, rate, full);
      if Placement.Overlap(l, from, to) > 0.0 { QuotientPositive(Placement.Overlap(l, from, to), rate); }
    }
  }

  lemma AddsOver(a: real, b: real, rate: real)
    requires rate > 0.0
    ensures (a + b) / rate == a / rate + b / rate && 0.0 / rate == 0.0
  {
    Bank.AddOver(a, b, rate);
  }

  lemma EntryIs(x: real, o: real, rate: real)
    requires rate > 0.0
    ensures Times(x, o / rate) == Times(x, o) / rate
  {
    Bank.FirstTerms(x, o, rate);
  }

  /** They carry what the frames play in the stretch. */
  lemma {:induction false} PiecesCarry(src: seq<real>, from: real, to: real, rate: real)
    requires rate > 0.0
    ensures Sum(Pieces(src, from, to, rate)) == Placement.Played(src, from, to) / rate
  {
    if src == [] {
      AddsOver(0.0, 0.0, rate);
    } else {
      var l := |src| - 1;
      var front, o := Pieces(src[..l], from, to, rate), Placement.Overlap(l, from, to);
      PiecesCarry(src[..l], from, to, rate);
      AddsOver(Placement.Played(src[..l], from, to), Times(src[l], o), rate);
      if o > 0.0 {
        EntryIs(src[l], o, rate);
        assert (front + [Entry(o / rate, src[l])])[..|front|] == front;
      } else {
        assert front + [] == front;
        Placement.ShareTerms(src[l], 0.0, 0.0);
      }
    }
  }

  /** And last as long as the stretch, if it lies inside the frames. */
  lemma {:induction false} PiecesLast(src: seq<real>, from: real, to: real, rate: real)
    requires rate > 0.0 && 0.0 <= from <= to
    ensures Total(Pieces(src, from, to, rate)) == (Min(to, |src| as real) - Min(from, |src| as real)) / rate
  {
    if src == [] {
      AddsOver(0.0, 0.0, rate);
    } else {
      var l := |src| - 1;
      var front, o := Pieces(src[..l], from, to, rate), Placement.Overlap(l, from, to);
      PiecesLast(src[..l], from, to, rate);
      assert (l + 1) as real == l as real + 1.0;
      AddsOver(Min(to, l as real) - Min(from, l as real), o, rate);
      if o > 0.0 {
        assert (front + [Entry(o / rate, src[l])])[..|front|] == front;
      } else {
        assert front + [] == front;
      }
      OverlapWithin(l, from, to);
    }
  }

  lemma OverlapNonneg(l: nat, from: real, to: real)
    ensures Placement.Overlap(l, from, to) >= 0.0
  {}

  lemma OverlapWithin(l: nat, from: real, to: real)
    requires 0.0 <= from <= to
    ensures Placement.Overlap(l, from, to) == Min(to, (l + 1) as real) - Min(from, (l + 1) as real)
                                      - (Min(to, l as real) - Min(from, l as real))
  {
    assert (l + 1) as real == l as real + 1.0;
  }

  /** Frames of no more power play no more. */
  lemma {:induction false} PlayedUnder(src: seq<real>, q: seq<real>, from: real, to: real)
    requires Under(src, q, from, to)
    ensures Placement.Played(src, from, to) <= Placement.Played(q, from, to)
  {
    if src != [] {
      var l := |src| - 1;
      PlayedUnder(src[..l], q[..l], from, to);
      hide Times, Placement.Overlap;
      var o := Placement.Overlap(l, from, to);
      OverlapNonneg(l, from, to);
      if o > 0.0 {
        TimesLess(o, src[l], q[l]);
      } else {
        Placement.ShareTerms(src[l], 0.0, 0.0);
        Placement.ShareTerms(q[l], 0.0, 0.0);
      }
    }
  }

  // ---- a span of frames -----------------------------------------------------------------------------

  /** What truly played from `from` to `to`, the frames ending at `end`. */
  function TrulyPlayed(src: seq<real>, rate: real, from: real, to: real, end: real): seq<Entry>
    requires rate > 0.0
  {
    Pieces(src, Placement.Position(|src|, end, rate, from), Placement.Position(|src|, end, rate, to), rate)
  }

  /** The frames that played in that span, none of more power than these. */
  ghost predicate UnderInSpan(src: seq<real>, q: seq<real>, rate: real, from: real, to: real, end: real) {
    Under(src, q, Placement.Position(|src|, end, rate, from), Placement.Position(|src|, end, rate, to))
  }

  /** A step that lasts as long as a stretch of frames and has at least their energy has recorded it. */
  lemma StretchRecorded(src: seq<real>, q: seq<real>, from: real, to: real, rate: real, e: Entry, full: real)
    requires rate > 0.0 && 0.0 <= from < to <= |q| as real && Under(src, q, from, to) && AtMostFull(q, full)
    requires e.secs == (to - from) / rate && Placement.Played(q, from, to) / rate <= e.Joules() && e.watts >= 0.0
    ensures Recorded(e, Pieces(src, from, to, rate), full)
  {
    QuotientPositive(to - from, rate);
    PiecesAre(src, q, from, to, rate, full);
    PiecesLast(src, from, to, rate);
    PiecesCarry(src, from, to, rate);
    PlayedUnder(src, q, from, to);
    QuotientOrder(Placement.Played(src, from, to), Placement.Played(q, from, to), rate);
  }

  lemma MeanNonneg(x: seq<real>)
    requires x != [] && forall i :: 0 <= i < |x| ==> x[i] >= 0.0
    ensures Speaker.MeanOf(x) >= 0.0
  {
    Bank.SumNonneg(x);
    QuotientNonneg(Placement.Sum(x), |x| as real);
  }

  /** The entry a stretch of whole frames leaves carries its energy. */
  lemma WholeEntry(x: seq<real>, rate: real) returns (e: Entry)
    requires x != [] && rate > 0.0 && forall i :: 0 <= i < |x| ==> x[i] >= 0.0
    ensures e == Entry(Bank.FrameSecs(|x|, rate), Speaker.MeanOf(x))
    ensures e.Joules() == Placement.Sum(x) / rate && e.secs > 0.0 && e.watts >= 0.0
  {
    e := Entry(Bank.FrameSecs(|x|, rate), Speaker.MeanOf(x));
    QuotientPositive(|x| as real, rate);
    MeanNonneg(x);
    Bank.MeanTime(Placement.Sum(x), |x| as real, rate);
  }

  lemma MeanOfOne(x: seq<real>)
    requires |x| == 1
    ensures Speaker.MeanOf(x) == x[0]
  {
    assert x[..0] == [] && Placement.Sum(x) == x[0];
    DivideTimes(x[0], 1.0);
  }

  /** And that of a single frame, for `first` of it. */
  lemma PartEntry(x: seq<real>, first: real, rate: real) returns (e: Entry)
    requires |x| == 1 && rate > 0.0 && first > 0.0 && x[0] >= 0.0
    ensures e == Entry(first / rate, Speaker.MeanOf(x))
    ensures e.Joules() == Times(x[0], first) / rate && e.secs > 0.0 && e.watts >= 0.0
  {
    e := Entry(first / rate, Speaker.MeanOf(x));
    QuotientPositive(first, rate);
    MeanOfOne(x);
    EntryIs(x[0], first, rate);
  }

  /** Where the frames that count lie, the frames ending `shift - o` frame times after `to`. */
  lemma SpanAt(n: nat, k: nat, first: real, rate: real, from: real, to: real, end: real) returns (d: real)
    requires rate > 0.0 && k > 0 && from == to - Bank.RunSecs(k, first, rate)
    ensures d == (end - to) * rate
    ensures Placement.Position(n, end, rate, to) == n as real - d
    ensures Placement.Position(n, end, rate, from) == n as real - d - ((k as real - 1.0) + first)
  {
    d := (end - to) * rate;
    var m := (k as real - 1.0) + first;
    assert (k - 1) as real == k as real - 1.0;
    var span := m / rate;
    DivideTimes(m, rate);
    assert (end - (to - span)) * rate == d + span * rate;
  }

  /** The doubt about the end, in frames. */
  lemma DoubtAt(rate: real, to: real, end: real, shift: nat, d: real)
    requires rate > 0.0 && to <= end <= to + shift as real / rate && d == (end - to) * rate
    ensures 0.0 <= d <= shift as real
  {
    DivideTimes(shift as real, rate);
    Nonneg(rate, end - to);
    ScaleOrder(rate, end - to, shift as real / rate);
  }

  // ---- one step -----------------------------------------------------------------------------------------

  /** The entry of a run that counts whole, or of one frame. */
  lemma RunEntry(run: seq<real>, first: real, rate: real) returns (e: Entry)
    requires run != [] && rate > 0.0 && PartCredit.Powers(run) && 0.0 < first <= 1.0 && (first == 1.0 || |run| == 1)
    ensures e == if first == 1.0 then Entry(Bank.FrameSecs(|run|, rate), Speaker.MeanOf(run))
                 else Entry(first / rate, Speaker.MeanOf(run))
    ensures e.Joules() == Bank.Weighted(run, first) / rate && e.watts >= 0.0
    ensures e.secs == Bank.RunSecs(|run|, first, rate)
  {
    if first == 1.0 {
      e := WholeEntry(run, rate);
      PartCredit.WeightedIs(run, 1.0);
      Placement.ShareTerms(run[0], 0.0, 0.0);
      assert (|run| - 1) as real + 1.0 == |run| as real;
    } else {
      e := PartEntry(run, first, rate);
      PartCredit.CreditOfOne(run, first);
    }
  }

  /** Its credit is at least what truly played. */
  lemma CreditIsEnough(q: seq<real>, certain: nat, k: nat, first: real, shift: nat, o: real)
    requires 0 < k <= certain && |q| == certain + shift && 0.0 < first <= 1.0 && (first == 1.0 || k == 1)
    requires PartCredit.Powers(q) && 0.0 <= o <= shift as real
    ensures PartCredit.Unaccounted(q, certain, k, first, o)
         <= Bank.Weighted(Bank.MostRun(q, certain, k, shift), first)
  {
    hide PartCredit.Unaccounted, PartCredit.Powers;
    PartCredit.CoversIff(certain, k, shift, first);
    hide Bank.Weighted, Bank.MostRun;
  }

  /** Frames that count whole, or a single one: the entry they leave has recorded what truly played. */
  lemma RunRecorded(src: seq<real>, q: seq<real>, certain: nat, k: nat, first: real, shift: nat, rate: real, o: real,
                    a: real, b: real, full: real) returns (e: Entry)
    requires rate > 0.0 && 0 < k <= certain && |q| == certain + shift && 0.0 < first <= 1.0 && (first == 1.0 || k == 1)
    requires 0.0 <= o <= shift as real && b == o + certain as real && a == b - ((k as real - 1.0) + first)
    requires Under(src, q, a, b) && AtMostFull(q, full) && PartCredit.Powers(q)
    ensures var run := Bank.MostRun(q, certain, k, shift);
      e == if first == 1.0 then Entry(Bank.FrameSecs(k, rate), Speaker.MeanOf(run)) else Entry(first / rate, Speaker.MeanOf(run))
    ensures Recorded(e, Pieces(src, a, b, rate), full)
  {
    hide Under, AtMostFull, PartCredit.Powers, Placement.Played, Bank.MostRun, Bank.Weighted, Speaker.MeanOf, Recorded, Pieces,
         Bank.RunSecs, Bank.FrameSecs;
    var run := Bank.MostRun(q, certain, k, shift);
    RunPowers(q, certain, k, shift);
    e := RunEntry(run, first, rate);
    SpanInside(certain, k, first, shift, o, a, b);
    RunSecsIs(k, first, rate, a, b);
    CreditOver(q, certain, k, first, shift, rate, o, a, b);
    StretchRecorded(src, q, a, b, rate, e, full);
  }

  lemma RunPowers(q: seq<real>, certain: nat, k: nat, shift: nat)
    requires 0 < k <= certain && |q| == certain + shift && PartCredit.Powers(q)
    ensures |Bank.MostRun(q, certain, k, shift)| == k && PartCredit.Powers(Bank.MostRun(q, certain, k, shift))
  {}

  lemma CreditOver(q: seq<real>, certain: nat, k: nat, first: real, shift: nat, rate: real, o: real, a: real, b: real)
    requires rate > 0.0 && 0 < k <= certain && |q| == certain + shift && 0.0 < first <= 1.0 && (first == 1.0 || k == 1)
    requires 0.0 <= o <= shift as real && b == o + certain as real && a == b - ((k as real - 1.0) + first)
    requires PartCredit.Powers(q)
    ensures Placement.Played(q, a, b) / rate <= Bank.Weighted(Bank.MostRun(q, certain, k, shift), first) / rate
  {
    hide PartCredit.Powers, Placement.Played, Bank.MostRun, Bank.Weighted, PartCredit.Unaccounted;
    CreditIsEnough(q, certain, k, first, shift, o);
    UnaccountedIs(q, certain, k, first, o, a, b);
    QuotientOrder(Placement.Played(q, a, b), Bank.Weighted(Bank.MostRun(q, certain, k, shift), first), rate);
  }

  lemma UnaccountedIs(q: seq<real>, certain: nat, k: nat, first: real, o: real, a: real, b: real)
    requires b == o + certain as real && a == b - ((k as real - 1.0) + first)
    ensures PartCredit.Unaccounted(q, certain, k, first, o) == Placement.Played(q, a, b)
  {
    hide Placement.Played;
  }

  lemma RunSecsIs(k: nat, first: real, rate: real, a: real, b: real)
    requires k > 0 && rate > 0.0 && b - a == (k - 1) as real + first
    ensures Bank.RunSecs(k, first, rate) == (b - a) / rate
  {}

  lemma SpanInside(certain: nat, k: nat, first: real, shift: nat, o: real, a: real, b: real)
    requires 0 < k <= certain && 0.0 < first <= 1.0 && 0.0 <= o <= shift as real
    requires b == o + certain as real && a == b - ((k as real - 1.0) + first)
    ensures 0.0 <= a < b <= (certain + shift) as real && b - a == (k - 1) as real + first
  {
    assert k as real <= certain as real && k as real >= 1.0;
  }

  // ---- two, for frames whose end is known -----------------------------------------------------------------

  lemma {:induction false} NoPieces(src: seq<real>, from: real, to: real, rate: real)
    requires rate > 0.0 && |src| as real <= from
    ensures Pieces(src, from, to, rate) == []
  {
    if src != [] {
      var l := |src| - 1;
      NoPieces(src[..l], from, to, rate);
      assert (l + 1) as real == |src| as real;
    }
  }

  /** A stretch cut between two frames. */
  lemma {:induction false} PiecesCut(src: seq<real>, from: real, mid: nat, to: real, rate: real)
    requires rate > 0.0 && from <= mid as real <= to
    ensures Pieces(src, from, to, rate) == Pieces(src, from, mid as real, rate) + Pieces(src, mid as real, to, rate)
  {
    if src != [] {
      var l := |src| - 1;
      PiecesCut(src[..l], from, mid, to, rate);
      assert (l + 1) as real == l as real + 1.0;
      if l < mid {
        assert l as real + 1.0 <= mid as real;
        NoPieces(src, mid as real, to, rate);
        NoPieces(src[..l], mid as real, to, rate);
        assert Placement.Overlap(l, from, to) == Placement.Overlap(l, from, mid as real);
      } else {
        assert Placement.Overlap(l, from, mid as real) == 0.0;
        assert Placement.Overlap(l, from, to) == Placement.Overlap(l, mid as real, to);
      }
    }
  }

  lemma UnderPart(src: seq<real>, q: seq<real>, from: real, to: real, a: real, b: real)
    requires Under(src, q, from, to) && from <= a <= b <= to
    ensures Under(src, q, a, b)
  {
    forall i | 0 <= i < |src| && Placement.Overlap(i, a, b) > 0.0 ensures 0.0 <= src[i] <= q[i] {
      assert Placement.Overlap(i, from, to) > 0.0;
    }
  }

  /** The first frame in part, and then the rest of the newest `k`. */
  lemma KnownRecorded(src: seq<real>, q: seq<real>, k: nat, first: real, rate: real, full: real) returns (e: Entry, f: Entry)
    requires rate > 0.0 && 1 < k <= |q| && 0.0 < first < 1.0
    requires Under(src, q, |q| as real - ((k as real - 1.0) + first), |q| as real) && AtMostFull(q, full) && PartCredit.Powers(q)
    ensures var run, i: nat, n := Bank.MostRun(q, |q|, k, 0), |q| - k, |q| as real;
      && e == Entry(first / rate, Speaker.MeanOf(run[..1]))
      && f == Entry(Bank.FrameSecs(k - 1, rate), Speaker.MeanOf(run[1..]))
      && Recorded(e, Pieces(src, n - ((k as real - 1.0) + first), (i + 1) as real, rate), full)
      && Recorded(f, Pieces(src, (i + 1) as real, n, rate), full)
  {
    hide Placement.Played, Placement.Sum, Speaker.MeanOf, AtMostFull, Under, Recorded, Pieces;
    var run, i: nat, n := Bank.MostRun(q, |q|, k, 0), |q| - k, |q| as real;
    var from, mid := n - ((k as real - 1.0) + first), (i + 1) as real;
    assert run == q[i..] && run[..1] == [q[i]] && run[1..] == q[i + 1..];
    hide Bank.MostRun;
    assert n == i as real + k as real && mid == i as real + 1.0 && n - mid == (k - 1) as real && mid - from == first;
    e := PartEntry(run[..1], first, rate);
    f := WholeEntry(run[1..], rate);
    hide PartCredit.Powers;
    TailSplits(q, k, first, from, mid);
    UnderPart(src, q, from, n, from, mid);
    UnderPart(src, q, from, n, mid, n);
    StretchRecorded(src, q, from, mid, rate, e, full);
    StretchRecorded(src, q, mid, n, rate, f, full);
  }

  lemma TailSplits(q: seq<real>, k: nat, first: real, from: real, mid: real)
    requires 1 < k <= |q| && 0.0 < first < 1.0
    requires from == |q| as real - ((k as real - 1.0) + first) && mid == |q| as real - (k as real - 1.0)
    ensures Placement.Played(q, from, mid) == Times(q[|q| - k], first)
    ensures Placement.Played(q, mid, |q| as real) == Placement.Sum(q[|q| - k + 1..])
  {
    hide Placement.Played, Placement.UpTo, Placement.Sum, Times;
    var n, i: nat := |q| as real, |q| - k;
    PartCredit.TailPlays(q, k, first);
    assert ((k - 1) as real - 1.0) + 1.0 == k as real - 1.0;
    PartCredit.TailPlays(q, k - 1, 1.0);
    Placement.ShareTerms(q[i + 1], 0.0, 0.0);
    Placement.ShareTerms(q[i], first, 1.0);
    Placement.PlayedIsDifference(q, from, mid);
    Placement.PlayedIsDifference(q, from, n);
    Placement.PlayedIsDifference(q, mid, n);
    Placement.RunOneOnTail(q, i);
  }

  // ---- the budgets ------------------------------------------------------------------------------------------

  /** Budgets that hold at least what really was hold it after measured frames, in every window of up to a minute
      and wherever the frames ended: if the first of those not yet accounted counts whole, or their end is known, or
      there is but one. */
  lemma MeasuredStaysOver(h: seq<Entry>, past: seq<Entry>, src: seq<real>, q: seq<real>, certain: nat, k: nat, first: real,
                          shift: nat, rate: real, from: real, to: real, end: real, w: real, full: real)
    requires Domination.Holds(h, past, full) && full > 0.0 && 0.0 <= w <= MINUTE
    requires rate > 0.0 && 0 < k <= certain && |q| == certain + shift && 0.0 < first <= 1.0
    requires first == 1.0 || shift == 0 || k == 1
    requires from == to - Bank.RunSecs(k, first, rate) && to <= end <= to + shift as real / rate
    requires UnderInSpan(src, q, rate, from, to, end) && AtMostFull(q, full) && PartCredit.Powers(q)
    ensures Truth(past + TrulyPlayed(src, rate, from, to, end), w)
         <= Energy(Bank.MeasuredHistory(h, Bank.MostRun(q, certain, k, shift), first, rate, full), w, full)
  {
    hide Truth, Energy, Record, UnderInSpan, Bank.MostRun, Speaker.MeanOf, Pieces, PartCredit.Powers, AtMostFull;
    var d := SpanAt(|q|, k, first, rate, from, to, end);
    SameFrames(src, q, rate, from, to, end);
    if first == 1.0 || k == 1 {
      DoubtAt(rate, to, end, shift, d);
      var o := shift as real - d;
      var a, b := Placement.Position(|q|, end, rate, from), Placement.Position(|q|, end, rate, to);
      UnderAt(src, q, rate, from, to, end, a, b);
      var e := RunRecorded(src, q, certain, k, first, shift, rate, o, a, b, full);
      Domination.BudgetStaysOver(h, past, e, TrulyPlayed(src, rate, from, to, end), w, full);
      WholeSlice(Bank.MostRun(q, certain, k, shift));
    } else {
      var n, mid: nat := |q| as real, |q| - k + 1;
      DoubtAt(rate, to, end, 0, d) by { ZeroOver(rate); }
      UnderAt(src, q, rate, from, to, end, n - ((k as real - 1.0) + first), n);
      var e, f := KnownRecorded(src, q, k, first, rate, full);
      var a, b := Pieces(src, n - ((k as real - 1.0) + first), mid as real, rate), Pieces(src, mid as real, n, rate);
      PiecesCut(src, n - ((k as real - 1.0) + first), mid, n, rate);
      TwoStayOver(h, past, e, a, f, b, w, full);
      assert past + (a + b) == past + a + b;
    }
  }

  /** What they leave is a proper history, and so is what was played. */
  lemma MeasuredStaysProper(h: seq<Entry>, past: seq<Entry>, src: seq<real>, q: seq<real>, certain: nat, k: nat, first: real,
                            shift: nat, rate: real, from: real, to: real, end: real, full: real)
    requires Proper(h) && Proper(past) && full > 0.0 && rate > 0.0 && 0 < k <= certain && |q| == certain + shift
    requires 0.0 < first <= 1.0 && UnderInSpan(src, q, rate, from, to, end) && AtMostFull(q, full) && PartCredit.Powers(q)
    ensures Proper(Bank.MeasuredHistory(h, Bank.MostRun(q, certain, k, shift), first, rate, full))
    ensures Proper(past + TrulyPlayed(src, rate, from, to, end))
  {
    hide Record, Pieces, Bank.MostRun, PartCredit.Powers, Bank.MeasuredHistory;
    PiecesAre(src, q, Placement.Position(|src|, end, rate, from), Placement.Position(|src|, end, rate, to), rate, full);
    RunPowers(q, certain, k, shift);
    HistoryStaysProper(h, Bank.MostRun(q, certain, k, shift), first, rate, full);
  }

  lemma HistoryStaysProper(h: seq<Entry>, run: seq<real>, first: real, rate: real, full: real)
    requires Proper(h) && full > 0.0 && rate > 0.0 && run != [] && 0.0 < first <= 1.0 && PartCredit.Powers(run)
    ensures Proper(Bank.MeasuredHistory(h, run, first, rate, full))
  {
    hide Record, Speaker.MeanOf, Proper, Bank.FrameSecs;
    if first == 1.0 {
      var e := WholeEntry(run, rate);
      RecordKeeps(h, e, full);
    } else {
      var e := PartEntry(run[..1], first, rate);
      RecordKeeps(h, e, full);
      if |run| > 1 {
        var f := WholeEntry(run[1..], rate);
        RecordKeeps(Record(h, e, full), f, full);
      }
    }
  }

  lemma ZeroOver(rate: real)
    requires rate > 0.0
    ensures 0 as real / rate == 0.0
  {
    AddsOver(0.0, 0.0, rate);
  }

  lemma SameFrames(src: seq<real>, q: seq<real>, rate: real, from: real, to: real, end: real)
    requires UnderInSpan(src, q, rate, from, to, end)
    ensures |src| == |q|
  {}

  lemma WholeSlice(x: seq<real>)
    requires x != []
    ensures |x| == 1 ==> x[..1] == x
  {}

  lemma UnderAt(src: seq<real>, q: seq<real>, rate: real, from: real, to: real, end: real, a: real, b: real)
    requires UnderInSpan(src, q, rate, from, to, end)
    requires a == Placement.Position(|q|, end, rate, from) && b == Placement.Position(|q|, end, rate, to)
    ensures Under(src, q, a, b)
  {}

  /** Two steps, one after the other. */
  lemma TwoStayOver(h: seq<Entry>, past: seq<Entry>, e: Entry, a: seq<Entry>, f: Entry, b: seq<Entry>, w: real, full: real)
    requires Domination.Holds(h, past, full) && full > 0.0 && 0.0 <= w <= MINUTE
    requires Recorded(e, a, full) && Recorded(f, b, full)
    ensures Truth(past + a + b, w) <= Energy(Record(Record(h, e, full), f, full), w, full)
  {
    hide Truth, Energy, Record;
    Domination.StepStaysOver(h, past, e, a, full);
    Domination.BudgetStaysOver(Record(h, e, full), past + a, f, b, w, full);
  }
}
