/** Measured frames against the clock (src/guard.rs, `placement` and `measure_shifted`): where
    they can have ended, which run of them is credited, and the blocks its energy is spread over. */
module Placement {
  import opened Reals

  const SUB_BLOCKS := 16

  function Ceil(x: real): int {
    -((-x).Floor)
  }

  function Sum(x: seq<real>): real {
    if x == [] then 0.0 else Sum(x[..|x| - 1]) + x[|x| - 1]
  }

  // ---- the placement --------------------------------------------------------------------------

  /** The earliest end of frames whose position, `queued` frames of backlog, was read between the
      two clock reads, and how many frames later they can end. */
  datatype Placed = Placed(early: real, shift: nat)

  function Place(before: real, after: real, queued: nat, rate: real): Placed
    requires rate > 0.0
  {
    var early := before - (queued + 1) as real / rate;
    var late := after - queued as real / rate;
    Placed(early, Ceil(Max(late - early, 0.0) * rate))
  }

  /** The run of `k` frames that ends `certain` frames after its offset. */
  function RunAt(x: seq<real>, certain: nat, k: nat, o: nat): seq<real>
    requires k <= certain && o + certain <= |x|
  {
    x[o + certain - k..o + certain]
  }

  /** The energy of the run at every offset. */
  function Totals(x: seq<real>, certain: nat, k: nat, shift: nat): (t: seq<real>)
    requires k <= certain && shift + certain <= |x|
    ensures |t| == shift + 1
  {
    seq(shift + 1, o requires 0 <= o <= shift => Sum(RunAt(x, certain, k, o)))
  }

  /** The largest, the last of several. */
  function LastMost(t: seq<real>): (i: nat)
    requires t != []
    ensures i < |t| && forall k :: 0 <= k < |t| ==> t[k] <= t[i]
  {
    var l := |t| - 1;
    if l == 0 then 0
    else
      var i := LastMost(t[..l]);
      assert forall k :: 0 <= k < l ==> t[k] == t[..l][k];
      if t[l] >= t[i] then l else i
  }

  /** The offset of the most energetic run. */
  function Best(x: seq<real>, certain: nat, k: nat, shift: nat): (o: nat)
    requires k <= certain && shift + certain <= |x|
    ensures o <= shift
  {
    LastMost(Totals(x, certain, k, shift))
  }

  function BestSum(x: seq<real>, certain: nat, k: nat, shift: nat): real
    requires k <= certain && shift + certain <= |x|
  {
    Sum(RunAt(x, certain, k, Best(x, certain, k, shift)))
  }

  lemma BestIsMost(x: seq<real>, certain: nat, k: nat, shift: nat, o: nat)
    requires k <= certain && shift + certain <= |x| && o <= shift
    ensures BestSum(x, certain, k, shift) >= Sum(RunAt(x, certain, k, o))
  {
    var t := Totals(x, certain, k, shift);
    assert t[o] <= t[LastMost(t)];
  }

  // ---- what truly played ------------------------------------------------------------------------

  lemma ShareTerms(x: real, a: real, b: real)
    ensures Times(x, b - a) == Times(x, b) - Times(x, a)
    ensures Times(x, 0.0) == 0.0 && Times(x, 1.0) == x
  {}

  /** How much of frame `i` lies in the stretch [from, to] of frame positions. */
  function Overlap(i: nat, from: real, to: real): real {
    Max(Min((i + 1) as real, to) - Max(i as real, from), 0.0)
  }

  /** The energy of the frames (per frame time) in a stretch of frame positions, whole or not. */
  function Played(p: seq<real>, from: real, to: real): real {
    if p == [] then 0.0
    else Played(p[..|p| - 1], from, to) + Times(p[|p| - 1], Overlap(|p| - 1, from, to))
  }

  function Clamp(x: real): real {
    Max(Min(x, 1.0), 0.0)
  }

  /** The energy up to a frame position. */
  function UpTo(p: seq<real>, z: real): real {
    if p == [] then 0.0
    else UpTo(p[..|p| - 1], z) + Times(p[|p| - 1], Clamp(z - (|p| - 1) as real))
  }

  lemma OverlapIs(i: nat, from: real, to: real)
    requires from <= to
    ensures Overlap(i, from, to) == Clamp(to - i as real) - Clamp(from - i as real)
  {
    assert (i + 1) as real == i as real + 1.0;
  }

  lemma {:induction false} PlayedIsDifference(p: seq<real>, from: real, to: real)
    requires from <= to
    ensures Played(p, from, to) == UpTo(p, to) - UpTo(p, from)
  {
    if p != [] {
      var l := |p| - 1;
      PlayedIsDifference(p[..l], from, to);
      OverlapIs(l, from, to);
      ShareTerms(p[l], Clamp(from - l as real), Clamp(to - l as real));
    }
  }

  lemma ClampAt(i: nat, theta: real, l: nat)
    requires 0.0 <= theta < 1.0
    ensures var c := Clamp(i as real + theta - l as real);
      && (i > l ==> c == 1.0)
      && (i == l ==> c == theta)
      && (i < l ==> c == 0.0)
  {
    if i > l { assert i as real >= l as real + 1.0; }
    if i < l { assert i as real + 1.0 <= l as real; }
  }

  /** The part of frame `i`, if there is one, up to `theta` into it. */
  function PartOf(p: seq<real>, i: nat, theta: real): real {
    if i < |p| then Times(p[i], theta) else 0.0
  }

  lemma {:induction false} UpToFrame(p: seq<real>, i: nat, theta: real)
    requires 0.0 <= theta < 1.0 && i <= |p|
    ensures UpTo(p, i as real + theta) == Sum(p[..i]) + PartOf(p, i, theta)
  {
    if p != [] {
      var l := |p| - 1;
      ClampAt(i, theta, l);
      ShareTerms(p[l], 0.0, 0.0);
      if i == |p| {
        UpToFrame(p[..l], l, theta);
        assert p[..i] == p && p[..l][..l] == p[..l];
        UpToFull(p[..l], i as real + theta);
      } else {
        UpToFrame(p[..l], i, theta);
        assert p[..l][..i] == p[..i];
      }
    }
  }

  lemma {:induction false} UpToFull(p: seq<real>, z: real)
    requires z >= |p| as real
    ensures UpTo(p, z) == Sum(p)
  {
    if p != [] {
      var l := |p| - 1;
      assert z >= l as real + 1.0;
      UpToFull(p[..l], z);
      ShareTerms(p[l], 0.0, 0.0);
    }
  }

  lemma {:induction false} SumAppend(a: seq<real>, b: seq<real>)
    ensures Sum(a + b) == Sum(a) + Sum(b)
  {
    if b == [] {
      assert a + b == a;
    } else {
      SumAppend(a, b[..|b| - 1]);
      assert (a + b)[..|a + b| - 1] == a + b[..|b| - 1];
    }
  }

  lemma SumSlice(p: seq<real>, i: nat, j: nat)
    requires i <= j <= |p|
    ensures Sum(p[..j]) == Sum(p[..i]) + Sum(p[i..j])
  {
    assert p[..j] == p[..i] + p[i..j];
    SumAppend(p[..i], p[i..j]);
  }

  /** The run of `n` frames one on differs by its ends. */
  lemma RunOneOn(p: seq<real>, i: nat, n: nat)
    requires i + n < |p|
    ensures Sum(p[i + 1..i + n + 1]) - Sum(p[i..i + n]) == p[i + n] - p[i]
  {
    SumSlice(p, i, i + n);
    SumSlice(p, i + 1, i + n + 1);
    SumSlice(p, i, i + 1);
    SumSlice(p, i + n, i + n + 1);
    SumOne(p, i);
    SumOne(p, i + n);
  }

  /** And one frame shorter by its first. */
  lemma RunOneOnTail(p: seq<real>, i: nat)
    requires i < |p|
    ensures Sum(p[i..]) == p[i] + Sum(p[i + 1..])
  {
    SumSlice(p, i, |p|);
    SumSlice(p, i + 1, |p|);
    SumSlice(p, i, i + 1);
    SumOne(p, i);
    assert p[i..|p|] == p[i..] && p[i + 1..|p|] == p[i + 1..];
  }

  /** What a stretch of `n` frames that starts `theta` into frame `i` plays. */
  lemma StretchIs(p: seq<real>, i: nat, theta: real, n: nat, from: real, to: real)
    requires 0.0 <= theta < 1.0 && i + n <= |p| && from == i as real + theta && to == (i + n) as real + theta
    ensures Played(p, from, to) == Sum(p[i..i + n]) + PartOf(p, i + n, theta) - PartOf(p, i, theta)
  {
    assert from <= to by { assert (i + n) as real == i as real + n as real; }
    PlayedIsDifference(p, from, to);
    UpToFrame(p, i, theta);
    UpToFrame(p, i + n, theta);
    SumSlice(p, i, i + n);
  }

  /** It is no more than the larger of the whole-frame runs at `i` and at `i + 1`. */
  lemma StretchAtMost(p: seq<real>, i: nat, theta: real, n: nat, m: real)
    requires 0.0 <= theta < 1.0 && n > 0 && i + n <= |p| && (i + n == |p| ==> theta == 0.0)
    requires Sum(p[i..i + n]) <= m && (i + n < |p| ==> Sum(p[i + 1..i + n + 1]) <= m)
    ensures Sum(p[i..i + n]) + PartOf(p, i + n, theta) - PartOf(p, i, theta) <= m
  {
    if i + n < |p| {
      RunOneOn(p, i, n);
      BlendAtMost(theta, p[i], p[i + n], Sum(p[i..i + n]), m);
    } else {
      ShareTerms(p[i], 0.0, 0.0);
    }
  }

  lemma BlendAtMost(theta: real, first: real, last: real, a: real, m: real)
    requires 0.0 <= theta < 1.0 && a <= m && a + last - first <= m
    ensures a + Times(last, theta) - Times(first, theta) <= m
  {
    Nonneg(theta, m - (a + last - first));
    Nonneg(1.0 - theta, m - a);
    assert m - (a + last * theta - first * theta) == theta * (m - (a + last - first)) + (1.0 - theta) * (m - a);
  }

  lemma SumOne(p: seq<real>, i: nat)
    requires i < |p|
    ensures Sum(p[i..i + 1]) == p[i]
  {
    assert p[i..i + 1] == [p[i]] && [p[i]][..0] == [];
  }

  /** Whatever whole or fractional offset the frames really ended at, the most energetic run holds
      at least what played. */
  lemma OffsetIsCovered(p: seq<real>, certain: nat, shift: nat, from: real, to: real)
    requires certain > 0 && |p| == certain + shift && 0.0 <= from <= shift as real && to == from + certain as real
    ensures Played(p, from, to) <= BestSum(p, certain, certain, shift)
  {
    var i, theta := Whole(from, shift);
    var m := BestSum(p, certain, certain, shift);
    StretchIs(p, i, theta, certain, from, to);
    BestIsMost(p, certain, certain, shift, i);
    if i < shift { BestIsMost(p, certain, certain, shift, i + 1); }
    StretchAtMost(p, i, theta, certain, m);
  }

  lemma Whole(from: real, shift: nat) returns (i: nat, theta: real)
    requires 0.0 <= from <= shift as real
    ensures 0.0 <= theta < 1.0 && from == i as real + theta && i <= shift && (i == shift ==> theta == 0.0)
  {
    i := from.Floor;
    theta := from - i as real;
  }

  /** The frames end where a position of `queued` whole frames and a part of one, read at `read`,
      puts them: from `early` on, and at most `shift` frames after it. */
  lemma EndIsPlaced(before: real, after: real, queued: nat, rate: real, read: real, phi: real, end: real) returns (d: real)
    requires rate > 0.0 && before <= read <= after && 0.0 <= phi < 1.0
    requires end == read - (queued as real + phi) / rate
    ensures var pl := Place(before, after, queued, rate);
      d == (end - pl.early) * rate && 0.0 <= d <= pl.shift as real
  {
    var q := queued as real;
    var i := 1.0 / rate;
    var early, late := before - (q + 1.0) / rate, after - q / rate;
    assert (q + phi) / rate == (q + phi) * i && (q + 1.0) / rate == (q + 1.0) * i && q / rate == q * i;
    assert rate * i == 1.0;
    d := (end - early) * rate;
    PlaceTerms(read - before, q, phi, i, rate, d);
    PlaceTerms(after - read, q, phi, i, rate, (late - end) * rate - phi + (1.0 - phi));
    ScaleOrder(rate, end - early, Max(late - early, 0.0)) by {
      assert late - end == (after - read) + phi * i;
      Nonneg(phi, i);
    }
  }

  lemma PlaceTerms(gap: real, q: real, phi: real, i: real, rate: real, d: real)
    requires gap >= 0.0 && rate > 0.0 && rate * i == 1.0 && phi < 1.0
    requires d == (gap - (q + phi) * i + (q + 1.0) * i) * rate
    ensures d >= 0.0
  {
    Nonneg(gap, rate);
    assert d == gap * rate + (1.0 - phi) * (rate * i);
  }

  /** Where a moment falls among `n` frames whose last one ends at `end`. */
  function Position(n: nat, end: real, rate: real, t: real): real {
    n as real - (end - t) * rate
  }

  lemma PositionTerms(n: nat, certain: nat, end: real, early: real, rate: real, d: real)
    requires rate > 0.0 && d == (end - early) * rate
    ensures Position(n, end, rate, early) == n as real - d
    ensures Position(n, end, rate, early - certain as real / rate) == n as real - d - certain as real
  {
    var span := certain as real / rate;
    DivideTimes(certain as real, rate);
    assert (end - (early - span)) * rate == d + span * rate;
  }

  /** What truly played in the placed span: the `certain` frame times up to `early`. */
  function InSpan(p: seq<real>, certain: nat, rate: real, early: real, end: real): real
    requires rate > 0.0
  {
    Played(p, Position(|p|, end, rate, early - certain as real / rate), Position(|p|, end, rate, early))
  }

  lemma SpanIsCovered(p: seq<real>, certain: nat, shift: nat, rate: real, early: real, end: real, d: real)
    requires rate > 0.0 && certain > 0 && |p| == certain + shift
    requires d == (end - early) * rate && 0.0 <= d <= shift as real
    ensures InSpan(p, certain, rate, early, end) <= BestSum(p, certain, certain, shift)
  {
    PositionTerms(|p|, certain, end, early, rate, d);
    var from := Position(|p|, end, rate, early - certain as real / rate);
    var to := Position(|p|, end, rate, early);
    OffsetIsCovered(p, certain, shift, from, to);
  }

  /** For every true end between the two clock reads, the most energetic run of the frames that
      certainly played credits the placed span with at least the energy that truly played in it,
      when none of it is accounted yet and the doubt is shorter than the frames. */
  lemma PlacedIsCovered(p: seq<real>, before: real, after: real, queued: nat, rate: real, read: real, phi: real, end: real)
    requires rate > 0.0 && before <= read <= after && 0.0 <= phi < 1.0
    requires end == read - (queued as real + phi) / rate
    requires Place(before, after, queued, rate).shift < |p|
    ensures var pl := Place(before, after, queued, rate);
      var certain := |p| - pl.shift;
      InSpan(p, certain, rate, pl.early, end) <= BestSum(p, certain, certain, pl.shift)
  {
    var pl := Place(before, after, queued, rate);
    var d := EndIsPlaced(before, after, queued, rate, read, phi, end);
    SpanIsCovered(p, |p| - pl.shift, pl.shift, rate, pl.early, end, d);
  }

  // ---- the blocks --------------------------------------------------------------------------------

  /** The bounds of block `b` of `blocks` over `n` frames. */
  function Cut(n: nat, b: nat, blocks: nat): (i: nat)
    requires blocks > 0 && b <= blocks
    ensures i <= n && (b == 0 ==> i == 0) && (b == blocks ==> i == n)
  {
    CutInside(n, b, blocks);
    n * b / blocks
  }

  lemma ScaleInt(a: int, b: int, n: nat)
    requires a <= b
    ensures a * n <= b * n
  {
    assert (b - a) * n >= 0;
    assert (b - a) * n == b * n - a * n;
  }

  lemma Quotient(a: nat, n: nat)
    requires n > 0
    ensures a / n * n <= a < a / n * n + n
  {}

  /** A quotient is where it lies between two multiples. */
  lemma QuotientBetween(a: nat, n: nat, lo: nat)
    requires n > 0 && lo * n <= a
    ensures lo <= a / n
    ensures a < lo * n + n ==> a / n == lo
  {
    var q := a / n;
    Quotient(a, n);
    if q < lo {
      ScaleInt(q + 1, lo, n);
      Step(q, n);
    } else if q > lo {
      ScaleInt(lo + 1, q, n);
      Step(lo, n);
    }
  }

  lemma Step(q: nat, n: nat)
    ensures (q + 1) * n == q * n + n
  {}

  lemma CutInside(n: nat, b: nat, blocks: nat)
    requires blocks > 0 && b <= blocks
    ensures n * b / blocks <= n && (b == blocks ==> n * b / blocks == n)
  {
    var a := n * b;
    ScaleInt(b, blocks, n);
    Quotient(a, blocks);
    assert n * blocks == blocks * n && b * n == a;
    if b == blocks {
      QuotientBetween(a, blocks, n);
    } else if a / blocks > n {
      ScaleInt(n + 1, a / blocks, blocks);
      Step(n, blocks);
    }
  }

  lemma CutOrder(n: nat, b: nat, blocks: nat)
    requires b < blocks
    ensures Cut(n, b, blocks) <= Cut(n, b + 1, blocks)
    ensures blocks <= n ==> Cut(n, b, blocks) < Cut(n, b + 1, blocks)
  {
    var a, i := n * b, n * b / blocks;
    assert n * (b + 1) == a + n by { Step(b, n); }
    Quotient(a, blocks);
    QuotientBetween(a + n, blocks, i);
    if blocks <= n {
      Step(i, blocks);
      QuotientBetween(a + n, blocks, i + 1);
    }
  }

  /** The mean power of block `b` over its equal share of the time. */
  function BlockMean(x: seq<real>, b: nat, blocks: nat): real
    requires 0 < blocks <= |x| && b < blocks
  {
    CutOrder(|x|, b, blocks);
    Sum(x[Cut(|x|, b, blocks)..Cut(|x|, b + 1, blocks)]) / (|x| as real / blocks as real)
  }

  function Means(x: seq<real>, blocks: nat): (m: seq<real>)
    requires 0 < blocks <= |x|
    ensures |m| == blocks
  {
    seq(blocks, b requires 0 <= b < blocks => BlockMean(x, b, blocks))
  }

  lemma {:induction false} MeansBelow(x: seq<real>, blocks: nat, b: nat, share: real)
    requires 0 < blocks <= |x| && b <= blocks && share == |x| as real / blocks as real
    ensures Times(Sum(Means(x, blocks)[..b]), share) == Sum(x[..Cut(|x|, b, blocks)])
  {
    if b > 0 {
      MeansBelow(x, blocks, b - 1, share);
      CutOrder(|x|, b - 1, blocks);
      var m := Means(x, blocks)[..b];
      assert m[..b - 1] == Means(x, blocks)[..b - 1];
      SumSlice(x, Cut(|x|, b - 1, blocks), Cut(|x|, b, blocks));
      MeanTimes(x, b - 1, blocks, share);
      Distribute(Sum(m[..b - 1]), m[b - 1], share);
    } else {
      Distribute(0.0, 0.0, share);
    }
  }

  lemma MeanTimes(x: seq<real>, b: nat, blocks: nat, share: real)
    requires 0 < blocks <= |x| && b < blocks && share == |x| as real / blocks as real
    ensures share > 0.0
    ensures Cut(|x|, b, blocks) <= Cut(|x|, b + 1, blocks)
    ensures Times(BlockMean(x, b, blocks), share) == Sum(x[Cut(|x|, b, blocks)..Cut(|x|, b + 1, blocks)])
  {
    CutOrder(|x|, b, blocks);
    DivideOrder(|x| as real, 0.0, blocks as real);
    DivideTimes(Sum(x[Cut(|x|, b, blocks)..Cut(|x|, b + 1, blocks)]), share);
  }

  lemma Distribute(a: real, b: real, c: real)
    ensures Times(a + b, c) == Times(a, c) + Times(b, c)
    ensures a == b == 0.0 ==> Times(a, c) == 0.0
  {}

  /** However unevenly the frames divide, the blocks' means over their equal shares of the time carry
      exactly the run's energy. */
  lemma MeansCarryAll(x: seq<real>, blocks: nat)
    requires 0 < blocks <= |x|
    ensures Times(Sum(Means(x, blocks)), |x| as real / blocks as real) == Sum(x)
  {
    var share := |x| as real / blocks as real;
    MeansBelow(x, blocks, blocks, share);
    assert Means(x, blocks)[..blocks] == Means(x, blocks);
    assert x[..|x|] == x;
  }

  /** The blocks a stretch of `n` frames is integrated in. */
  function Blocks(n: nat, period: nat): (b: nat)
    requires n > 0 && period > 0
    ensures 1 <= b <= n
  {
    var b := (SUB_BLOCKS * n + period - 1) / period;
    if b < 1 then 1 else if b > n then n else b
  }
}
