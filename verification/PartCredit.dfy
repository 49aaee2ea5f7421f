/** Frames the account has reached already (src/guard.rs, `measure_shifted`): of the newest `k` the first
    counts for a part of itself only. The loudest run is chosen before that frame is weighed, so with the end in
    doubt it can be credited less than what truly played. */
module PartCredit {
  import opened Reals
  import opened Placement
  import Bank

  /** What the run that is chosen is credited, per frame time. */
  function Credited(p: seq<real>, certain: nat, k: nat, shift: nat, first: real): real
    requires 0 < k <= certain && shift + certain == |p|
  {
    Bank.Weighted(Bank.MostRun(p, certain, k, shift), first)
  }

  /** What truly played in the time not yet accounted, the span up to the earliest end, if the frames ended `shift -
      o` frame times after that. */
  function Unaccounted(p: seq<real>, certain: nat, k: nat, first: real, o: real): real {
    Played(p, o + certain as real - ((k as real - 1.0) + first), o + certain as real)
  }

  ghost predicate Powers(p: seq<real>) {
    forall i :: 0 <= i < |p| ==> p[i] >= 0.0
  }

  /** Whatever the frames and wherever they ended, the credit holds at least what truly played. */
  ghost predicate Covers(certain: nat, k: nat, shift: nat, first: real)
    requires 0 < k <= certain
  {
    forall p: seq<real>, o: real ::
      |p| == certain + shift && Powers(p) && 0.0 <= o <= shift as real
      ==> Unaccounted(p, certain, k, first, o) <= Credited(p, certain, k, shift, first)
  }

  // ---- a whole run --------------------------------------------------------------------------------

  /** A stretch of `k` frames wherever it lies is no louder than the chosen run. */
  lemma WholeIsCovered(p: seq<real>, certain: nat, k: nat, shift: nat, o: real)
    requires 0 < k <= certain && |p| == certain + shift && 0.0 <= o <= shift as real
    ensures Unaccounted(p, certain, k, 1.0, o) <= BestSum(p, certain, k, shift)
  {
    hide BestSum;
    var i, theta := Whole(o, shift);
    RunIsCovered(p, certain, k, shift, i);
    if i < shift { RunIsCovered(p, certain, k, shift, i + 1); }
    var j: nat := i + certain - k;
    var from, to := o + certain as real - ((k as real - 1.0) + 1.0), o + certain as real;
    StretchCovered(p, j, theta, k, from, to, BestSum(p, certain, k, shift));
  }

  lemma RunIsCovered(p: seq<real>, certain: nat, k: nat, shift: nat, i: nat)
    requires 0 < k <= certain && |p| == certain + shift && i <= shift
    ensures Sum(p[i + certain - k..i + certain]) <= BestSum(p, certain, k, shift)
  {
    BestIsMost(p, certain, k, shift, i);
  }

  lemma StretchCovered(p: seq<real>, j: nat, theta: real, k: nat, from: real, to: real, m: real)
    requires 0.0 <= theta < 1.0 && k > 0 && j + k <= |p| && (j + k == |p| ==> theta == 0.0)
    requires from == j as real + theta && to == j as real + k as real + theta
    requires Sum(p[j..j + k]) <= m && (j + k < |p| ==> Sum(p[j + 1..j + k + 1]) <= m)
    ensures Played(p, from, to) <= m
  {
    hide Played, Sum, PartOf;
    StretchIs(p, j, theta, k, from, to);
    StretchAtMost(p, j, theta, k, m);
  }

  lemma WeightedIs(x: seq<real>, first: real)
    requires x != []
    ensures Bank.Weighted(x, first) == Sum(x) - Times(x[0], 1.0 - first)
  {
    SumSlice(x, 1, |x|);
    SumOne(x, 0);
    assert x[..|x|] == x && x[..1] == x[0..1] && x[1..|x|] == x[1..];
    ShareTerms(x[0], first, 1.0);
  }

  lemma {:induction false} UpToOrder(p: seq<real>, a: real, b: real)
    requires Powers(p) && a <= b
    ensures UpTo(p, a) <= UpTo(p, b)
  {
    if p != [] {
      var l := |p| - 1;
      UpToOrder(p[..l], a, b);
      ShareOrder(p[l], p[l], Clamp(a - l as real), Clamp(b - l as real));
    }
  }

  lemma ShareOrder(x: real, y: real, a: real, b: real)
    requires 0.0 <= x <= y && 0.0 <= a <= b
    ensures Times(x, a) <= Times(y, b)
  {
    ScaleOrder(a, x, y);
    ScaleOrder(y, a, b);
  }

  /** The credit is never short by more than what is not counted of its first frame. */
  lemma ShortByAFrame(p: seq<real>, certain: nat, k: nat, shift: nat, first: real, o: real)
    requires 0 < k <= certain && |p| == certain + shift && Powers(p) && 0.0 < first <= 1.0 && 0.0 <= o <= shift as real
    ensures var run := Bank.MostRun(p, certain, k, shift);
      Unaccounted(p, certain, k, first, o) <= Credited(p, certain, k, shift, first) + Times(run[0], 1.0 - first)
  {
    var run, to := Bank.MostRun(p, certain, k, shift), o + certain as real;
    WeightedIs(run, first);
    WholeIsCovered(p, certain, k, shift, o);
    var a, b := to - ((k as real - 1.0) + 1.0), to - ((k as real - 1.0) + first);
    PlayedIsDifference(p, a, to);
    PlayedIsDifference(p, b, to);
    UpToOrder(p, a, b);
  }

  // ---- when it is never short -----------------------------------------------------------------------

  /** A first frame that counts whole. */
  lemma WholeCovers(certain: nat, k: nat, shift: nat)
    requires 0 < k <= certain
    ensures Covers(certain, k, shift, 1.0)
  {
    forall p: seq<real>, o: real | |p| == certain + shift && Powers(p) && 0.0 <= o <= shift as real
      ensures Unaccounted(p, certain, k, 1.0, o) <= Credited(p, certain, k, shift, 1.0)
    {
      WholeIsCovered(p, certain, k, shift, o);
      WeightedIs(Bank.MostRun(p, certain, k, shift), 1.0);
      ShareTerms(Bank.MostRun(p, certain, k, shift)[0], 0.0, 0.0);
    }
  }

  /** An end that is known: the credit is exact. */
  lemma KnownEndIsExact(p: seq<real>, certain: nat, k: nat, first: real)
    requires 0 < k <= certain && |p| == certain && 0.0 < first <= 1.0
    ensures Unaccounted(p, certain, k, first, 0.0) == Credited(p, certain, k, 0, first)
  {
    var run := Bank.MostRun(p, certain, k, 0);
    assert run == p[|p| - k..] && run[0] == p[|p| - k];
    WeightedIs(run, first);
    TailPlays(p, k, first);
  }

  /** The newest `k` frames but for a part of the first of them. */
  lemma TailPlays(p: seq<real>, k: nat, first: real)
    requires 0 < k <= |p| && 0.0 < first <= 1.0
    ensures Played(p, |p| as real - ((k as real - 1.0) + first), |p| as real)
         == Sum(p[|p| - k..]) - Times(p[|p| - k], 1.0 - first)
  {
    var n, i: nat := |p| as real, |p| - k;
    var from := n - ((k as real - 1.0) + first);
    assert from == i as real + (1.0 - first);
    hide Played, UpTo, Times;
    PlayedIsDifference(p, from, n);
    UpToFull(p, n);
    UpToFrame(p, i, 1.0 - first);
    SumSlice(p, i, |p|);
    assert p[..|p|] == p && p[i..|p|] == p[i..];
  }

  lemma {:induction false} OneFrameAtMost(p: seq<real>, lo: nat, top: real, from: real, to: real)
    requires lo as real <= from <= to && top >= 0.0 && forall i :: lo <= i < |p| ==> p[i] <= top
    ensures Played(p, from, to) <= Times(top, Min(to, |p| as real) - Min(from, |p| as real))
  {
    if p == [] {
      Nonneg(top, Min(to, 0.0) - Min(from, 0.0));
    } else {
      var l := |p| - 1;
      OneFrameAtMost(p[..l], lo, top, from, to);
      hide Times;
      LengthAdds(l, top, from, to);
      if l >= lo {
        AtMostTop(p[l], top, Overlap(l, from, to));
      } else {
        ShareTerms(p[l], 0.0, 0.0);
        ShareTerms(top, 0.0, 0.0);
      }
    }
  }

  lemma AtMostTop(x: real, top: real, o: real)
    requires x <= top && o >= 0.0
    ensures Times(x, o) <= Times(top, o)
  {
    ScaleOrder(o, x, top);
  }

  lemma LengthAdds(l: nat, top: real, from: real, to: real)
    requires 0.0 <= from <= to
    ensures var n := (l + 1) as real;
      Times(top, Min(to, n) - Min(from, n))
      == Times(top, Min(to, l as real) - Min(from, l as real)) + Times(top, Overlap(l, from, to))
  {
    assert (l + 1) as real == l as real + 1.0;
    var a, b := Min(to, l as real) - Min(from, l as real), Overlap(l, from, to);
    assert Min(to, (l + 1) as real) - Min(from, (l + 1) as real) == a + b;
    ShareTerms(top, a, a + b);
  }

  /** A single frame. */
  lemma OneFrameCovers(p: seq<real>, certain: nat, shift: nat, first: real, o: real)
    requires 0 < certain && |p| == certain + shift && Powers(p) && 0.0 < first <= 1.0 && 0.0 <= o <= shift as real
    ensures Unaccounted(p, certain, 1, first, o) <= Credited(p, certain, 1, shift, first)
  {
    var run := Bank.MostRun(p, certain, 1, shift);
    forall i | certain - 1 <= i < |p| ensures p[i] <= run[0] {
      LoudestIs(p, certain, shift, i);
    }
    OneFrameAtMost(p, certain - 1, run[0], o + certain as real - first, o + certain as real);
    CreditOfOne(run, first);
  }

  lemma LoudestIs(p: seq<real>, certain: nat, shift: nat, i: nat)
    requires 0 < certain && |p| == certain + shift && certain - 1 <= i < |p|
    ensures p[i] <= Bank.MostRun(p, certain, 1, shift)[0]
  {
    var run := Bank.MostRun(p, certain, 1, shift);
    RunIsCovered(p, certain, 1, shift, i - (certain - 1));
    SumOne(p, i);
    assert run == [run[0]] && [run[0]][..0] == [];
  }

  lemma CreditOfOne(run: seq<real>, first: real)
    requires |run| == 1
    ensures Bank.Weighted(run, first) == Times(run[0], first)
  {
    assert run[1..] == [];
  }

  lemma TimesCommutes(x: real, y: real)
    ensures Times(x, y) == Times(y, x)
  {}

  // ---- and when it is ------------------------------------------------------------------------------------

  /** Silence but for a loud first frame of the earliest run and a quieter last frame of the latest. */
  function TwoFrames(certain: nat, k: nat, shift: nat, loud: real): (p: seq<real>)
    requires 1 < k <= certain && shift > 0
    ensures |p| == certain + shift
    ensures forall i :: 0 <= i < |p| ==> p[i] == if i == certain - k then loud else if i == |p| - 1 then 1.0 else 0.0
  {
    seq(certain + shift, i => if i == certain - k then loud else if i == certain + shift - 1 then 1.0 else 0.0)
  }

  lemma {:induction false} SumZero(x: seq<real>)
    requires forall i :: 0 <= i < |x| ==> x[i] == 0.0
    ensures Sum(x) == 0.0
  {
    if x != [] { SumZero(x[..|x| - 1]); }
  }

  lemma FirstOnly(x: seq<real>)
    requires x != [] && forall i :: 0 < i < |x| ==> x[i] == 0.0
    ensures Sum(x) == x[0]
  {
    SumSlice(x, 1, |x|);
    SumZero(x[1..]);
    SumOne(x, 0);
    assert x[..|x|] == x && x[..1] == x[0..1] && x[1..|x|] == x[1..];
  }

  lemma LastOnly(x: seq<real>)
    requires x != [] && forall i :: 0 <= i < |x| - 1 ==> x[i] == 0.0
    ensures Sum(x) == x[|x| - 1]
  {
    SumZero(x[..|x| - 1]);
  }

  lemma TwoFramesSums(certain: nat, k: nat, shift: nat, loud: real, o: nat)
    requires 1 < k <= certain && shift > 0 && o <= shift
    ensures Sum(RunAt(TwoFrames(certain, k, shift, loud), certain, k, o))
         == if o == 0 then loud else if o == shift then 1.0 else 0.0
  {
    hide Sum;
    var p := TwoFrames(certain, k, shift, loud);
    var x := RunAt(p, certain, k, o);
    assert forall i :: 0 <= i < k ==> x[i] == p[o + certain - k + i];
    if o == 0 { FirstOnly(x); } else { LastOnly(x); }
  }

  /** Otherwise some frames are credited less than what truly played. */
  lemma FallsShort(certain: nat, k: nat, shift: nat, first: real) returns (p: seq<real>)
    requires 1 < k <= certain && shift > 0 && 0.0 < first < 1.0
    ensures |p| == certain + shift && Powers(p)
    ensures Unaccounted(p, certain, k, first, shift as real) > Credited(p, certain, k, shift, first)
  {
    var loud := Between(first);
    p := TwoFrames(certain, k, shift, loud);
    var b := Best(p, certain, k, shift);
    BestIsMost(p, certain, k, shift, 0);
    TwoFramesSums(certain, k, shift, loud, 0);
    TwoFramesSums(certain, k, shift, loud, b);
    assert b == 0;
    var run := Bank.MostRun(p, certain, k, shift);
    WeightedIs(run, first);
    ShareTerms(loud, first, 1.0);
    LatestPlays(p, certain, k, shift, first, loud);
  }

  /** A power over one that `first` brings under it. */
  lemma Between(first: real) returns (loud: real)
    requires 0.0 < first < 1.0
    ensures loud > 1.0 && Times(loud, first) < 1.0
  {
    loud := 2.0 / (1.0 + first);
    DivideTimes(2.0, 1.0 + first);
    var d := 1.0 + first;
    if loud <= 1.0 { ScaleOrder(d, loud, 1.0); }
    assert loud * d == loud + loud * first;
  }

  lemma LatestPlays(p: seq<real>, certain: nat, k: nat, shift: nat, first: real, loud: real)
    requires 1 < k <= certain && shift > 0 && 0.0 < first < 1.0 && p == TwoFrames(certain, k, shift, loud)
    ensures Unaccounted(p, certain, k, first, shift as real) == 1.0
  {
    assert |p| as real == shift as real + certain as real;
    TailPlays(p, k, first);
    assert RunAt(p, certain, k, shift) == p[|p| - k..];
    TwoFramesSums(certain, k, shift, loud, shift);
    ShareTerms(p[|p| - k], 0.0, 0.0);
    TimesCommutes(0.0, 1.0 - first);
    ShareTerms(1.0 - first, 0.0, 0.0);
  }

  /** So it covers them all exactly if the first frame counts whole, the end is known, or there is but one. */
  lemma CoversIff(certain: nat, k: nat, shift: nat, first: real)
    requires 0 < k <= certain && 0.0 < first <= 1.0
    ensures Covers(certain, k, shift, first) <==> first == 1.0 || shift == 0 || k == 1
  {
    if first == 1.0 {
      WholeCovers(certain, k, shift);
    } else if shift == 0 || k == 1 {
      forall p: seq<real>, o: real | |p| == certain + shift && Powers(p) && 0.0 <= o <= shift as real
        ensures Unaccounted(p, certain, k, first, o) <= Credited(p, certain, k, shift, first)
      {
        if shift == 0 { KnownEndIsExact(p, certain, k, first); } else { OneFrameCovers(p, certain, shift, first, o); }
      }
    } else {
      var p := FallsShort(certain, k, shift, first);
      assert Unaccounted(p, certain, k, first, shift as real) > Credited(p, certain, k, shift, first);
    }
  }
}
