/** Undoing the card's gain (src/model.rs, `frame_powers` and `converted_at`): each sense word
    inverted at the most of the reductions that can have delivered it. */
module Inversion {
  import opened Config
  import opened Curves
  import opened Reals

  const FULL_WORD := 2147483648.0

  /** How far a word may sit outside the reduction that converted it (dB). */
  const ROOM_EPS_DB := 0.00001

  /** The most reduction that still delivers a word at full scale; none for a silent word. */
  datatype Room = Unlimited | Upto(db: real)

  /** A reduction the card may have converted at: anything from `lo` to `hi` (dB). */
  datatype Range = Range(lo: real, hi: real)

  datatype Fit = NoFit | BestFit(db: real)

  predicate Fits(r: Range, room: Room) {
    room.Unlimited? || r.lo <= room.db + ROOM_EPS_DB
  }

  function Through(r: Range, room: Room): real {
    if room.Unlimited? then r.hi else Min(r.hi, room.db)
  }

  function Best(possible: seq<Range>, room: Room): Fit {
    if possible == [] then NoFit
    else
      var front, r := Best(possible[..|possible| - 1], room), possible[|possible| - 1];
      if !Fits(r, room) then front
      else if front.NoFit? then BestFit(Through(r, room))
      else BestFit(Max(front.db, Through(r, room)))
  }

  function Most(possible: seq<Range>): real {
    if possible == [] then 0.0 else Max(Most(possible[..|possible| - 1]), possible[|possible| - 1].hi)
  }

  function Converted(room: Room, possible: seq<Range>): real {
    var fit := Best(possible, room);
    Max(if fit.NoFit? then Most(possible) else fit.db, 0.0)
  }

  method ConvertedAt(room: Room, possible: seq<Range>) returns (db: real)
    ensures db == Converted(room, possible)
  {
    var fit := NoFit;
    var most := 0.0;
    var i := 0;
    while i < |possible|
      invariant 0 <= i <= |possible|
      invariant fit == Best(possible[..i], room) && most == Most(possible[..i])
    {
      assert possible[..i + 1][..i] == possible[..i];
      var r := possible[i];
      most := Max(most, r.hi);
      if Fits(r, room) {
        var v := Through(r, room);
        fit := if fit.NoFit? then BestFit(v) else BestFit(Max(fit.db, v));
      }
      i := i + 1;
    }
    assert possible[..i] == possible;
    db := Max(if fit.NoFit? then most else fit.db, 0.0);
  }

  /** The reduction chosen is what some range can have delivered, and no range that fits can
      have delivered the word at more. */
  lemma {:induction false} ConvertedIsTheMost(room: Room, possible: seq<Range>, i: nat)
    requires i < |possible| && Fits(possible[i], room)
    ensures Best(possible, room).BestFit? && Best(possible, room).db >= Through(possible[i], room)
    ensures Converted(room, possible) >= Through(possible[i], room)
    decreases |possible|
  {
    var l := |possible| - 1;
    if i < l {
      ConvertedIsTheMost(room, possible[..l], i);
    }
  }

  function Abs(w: int): int {
    if w < 0 then -w else w
  }

  function RoomOf(c: Curves, w: int): Room {
    if w == 0 then Unlimited else Upto(c.room(Abs(w) as real / FULL_WORD))
  }

  /** The power of a voltage across the coil. */
  function Power(s: Spec, volts: real): real
    requires s.zNominal > 0.0
  {
    volts * volts / s.zNominal
  }

  function FullScale(s: Spec): real
    requires s.zNominal > 0.0
  {
    Power(s, s.vsScale)
  }

  /** The voltage of so many steps of the word. */
  function Steps(s: Spec, x: real): real {
    x * (s.vsScale / FULL_WORD)
  }

  /** The frame's power in the coil. */
  function Delivered(s: Spec, w: int): real
    requires s.zNominal > 0.0
  {
    Power(s, Steps(s, w as real))
  }

  /** The step above the word, the gain of `db` undone (10^(db/20) is `gain(-db)`). */
  function Undone(c: Curves, s: Spec, w: int, db: real): real
    requires s.zNominal > 0.0
  {
    Power(s, StepAbove(s, w)) * (c.gain(-db) * c.gain(-db))
  }

  function StepAbove(s: Spec, w: int): real {
    Steps(s, (Abs(w) + 1) as real)
  }

  /** The frame's power before the gain, never more than a full-scale signal. */
  function Before(c: Curves, s: Spec, w: int, possible: seq<Range>): real
    requires s.zNominal > 0.0
  {
    Min(Undone(c, s, w, Converted(RoomOf(c, w), possible)), FullScale(s))
  }

  method FramePowers(c: Curves, s: Spec, words: seq<int>, channels: nat, possible: seq<Range>)
    returns (p: seq<real>, q: seq<real>)
    requires ValidSpec(s) && s.vsChan < channels
    ensures |p| == |q| == |words| / channels
    ensures forall f :: 0 <= f < |p| ==> f * channels + s.vsChan < |words|
    ensures forall f :: 0 <= f < |p| ==> p[f] == Delivered(s, words[f * channels + s.vsChan])
    ensures forall f :: 0 <= f < |q| ==> q[f] == Before(c, s, words[f * channels + s.vsChan], possible)
  {
    hide Delivered, Undone, FullScale;
    var frames := |words| / channels;
    p, q := [], [];
    var f := 0;
    while f < frames
      invariant 0 <= f <= frames && |p| == |q| == f
      invariant forall g :: 0 <= g < f ==> g * channels + s.vsChan < |words|
      invariant forall g :: 0 <= g < f ==> p[g] == Delivered(s, words[g * channels + s.vsChan])
      invariant forall g :: 0 <= g < f ==> q[g] == Before(c, s, words[g * channels + s.vsChan], possible)
    {
      FrameInside(f, frames, channels, s.vsChan, |words|);
      var w := words[f * channels + s.vsChan];
      var db := ConvertedAt(RoomOf(c, w), possible);
      p := p + [Delivered(s, w)];
      q := q + [Min(Undone(c, s, w, db), FullScale(s))];
      f := f + 1;
    }
  }

  lemma FrameInside(f: nat, frames: nat, channels: nat, ch: nat, n: nat)
    requires f < frames && ch < channels && frames == n / channels
    ensures f * channels + ch < n
  {
    assert (f + 1) * channels <= frames * channels;
    assert frames * channels <= n;
  }

  // ---- soundness ------------------------------------------------------------------------------

  /** How a frame came about: a source at `a` of full scale, converted at the reduction `r`
      inside one of the `possible` ranges by a gain table off by up to `eps` dB; the word is at
      most what was played and less than a step under it. */
  ghost predicate Played(c: Curves, w: int, possible: seq<Range>, i: nat, a: real, r: real, g: real, eps: real) {
    && 0.0 <= eps <= ROOM_EPS_DB
    && i < |possible| && possible[i].lo <= r <= possible[i].hi
    && 0.0 <= a <= 1.0
    && c.gain(r + eps) <= g <= c.gain(r - eps)
    && Abs(w) as real <= a * g * FULL_WORD <= (Abs(w) + 1) as real
  }

  lemma WordShare(w: real, a: real, g: real)
    requires 0.0 <= a <= 1.0 && g >= 0.0 && w <= a * g * FULL_WORD
    ensures w / FULL_WORD <= g
  {
    Nonneg(1.0 - a, g);
    assert g - a * g == (1.0 - a) * g;
  }

  lemma RoomBound(c: Curves, w: int, a: real, r: real, g: real)
    requires Lawful(c) && w != 0 && 0.0 <= a <= 1.0 && 0.0 <= g <= c.gain(r)
    requires Abs(w) as real <= a * g * FULL_WORD
    ensures c.room(Abs(w) as real / FULL_WORD) >= r
  {
    WordShare(Abs(w) as real, a, g);
    RoomInverse(c, Abs(w) as real / FULL_WORD);
    GainOrder(c, c.room(Abs(w) as real / FULL_WORD), r);
  }

  lemma PlayedFits(c: Curves, w: int, possible: seq<Range>, i: nat, a: real, r: real, g: real, eps: real)
    requires Lawful(c) && Played(c, w, possible, i, a, r, g, eps)
    ensures Converted(RoomOf(c, w), possible) >= r - eps
  {
    GainPositive(c, r + eps);
    if w != 0 { RoomBound(c, w, a, r - eps, g); }
    ConvertedIsTheMost(RoomOf(c, w), possible, i);
  }

  lemma PowerOrder(s: Spec, x: real, y: real)
    requires s.zNominal > 0.0 && 0.0 <= x <= y
    ensures Power(s, x) <= Power(s, y)
  {
    ScaleOrder(x, x, y);
    ScaleOrder(y, x, y);
    QuotientOrder(x * x, y * y, s.zNominal);
  }

  lemma UndoneIsPower(c: Curves, s: Spec, w: int, db: real, m: real)
    requires s.zNominal > 0.0 && m == StepAbove(s, w) * c.gain(-db)
    ensures Undone(c, s, w, db) == Power(s, m)
  {
    SquareTerms(StepAbove(s, w), c.gain(-db), s.zNominal);
  }

  lemma SquareTerms(up: real, g: real, z: real)
    requires z > 0.0
    ensures up * up / z * (g * g) == up * g * (up * g) / z
  {
    var i := 1.0 / z;
    assert up * up / z == up * up * i && up * g * (up * g) / z == up * g * (up * g) * i;
  }

  /** The voltage undone is at least the source's, less the table's rounding twice over. */
  lemma VoltageUndone(c: Curves, s: Spec, w: int, a: real, r: real, g: real, eps: real, db: real)
    requires Lawful(c) && ValidSpec(s) && 0.0 <= a && eps >= 0.0 && db >= r - eps
    requires c.gain(r + eps) <= g && a * g * FULL_WORD <= (Abs(w) + 1) as real
    ensures a * s.vsScale * c.gain(2.0 * eps) <= StepAbove(s, w) * c.gain(-db)
  {
    GainPositive(c, r + eps);
    GainPositive(c, eps - r);
    GainAdd(c, r + eps, eps - r);
    assert r + eps + (eps - r) == 2.0 * eps;
    GainAntitone(c, -db, eps - r);
    VoltageTerms(a, s.vsScale, c.gain(r + eps), c.gain(eps - r), g, c.gain(-db), (Abs(w) + 1) as real, c.gain(2.0 * eps));
  }

  lemma VoltageTerms(a: real, v: real, g0: real, h0: real, g: real, h: real, up: real, k: real)
    requires a >= 0.0 && v > 0.0 && 0.0 < g0 <= g && 0.0 < h0 <= h && a * g * FULL_WORD <= up && k == g0 * h0
    ensures a * v * k <= up * (v / FULL_WORD) * h
  {
    var u := v / FULL_WORD;
    assert g0 * h0 <= g * h by {
      Nonneg(g - g0, h0);
      Nonneg(g, h - h0);
      assert g * h - g0 * h0 == (g - g0) * h0 + g * (h - h0);
    }
    Nonneg(a, v);
    ScaleOrder(a * v, k, g * h);
    Nonneg(u, h);
    ScaleOrder(u * h, a * g * FULL_WORD, up);
    assert a * g * FULL_WORD * (u * h) == a * v * (g * h);
    assert up * (u * h) == up * u * h;
  }

  lemma SameSize(s: Spec, v: real, y: real)
    requires s.zNominal > 0.0 && (y == v || y == -v)
    ensures Power(s, y) == Power(s, v)
  {
    assert y * y == v * v;
  }

  lemma StepsOrder(s: Spec, x: real, y: real)
    requires ValidSpec(s) && 0.0 <= x <= y
    ensures 0.0 <= Steps(s, x) <= Steps(s, y)
  {
    var u := s.vsScale / FULL_WORD;
    QuotientPositive(s.vsScale, FULL_WORD);
    Nonneg(x, u);
    ScaleOrder(u, x, y);
  }

  lemma StepsOfSize(s: Spec, w: int)
    ensures var v, y := Steps(s, Abs(w) as real), Steps(s, w as real); y == v || y == -v
  {
    if w < 0 { assert w as real == -(Abs(w) as real); }
  }

  lemma PowersBetween(s: Spec, lo: real, at: real, hi: real)
    requires s.zNominal > 0.0 && 0.0 <= lo <= at <= hi
    ensures Power(s, lo) <= Power(s, at) <= Power(s, hi)
  {
    PowerOrder(s, lo, at);
    PowerOrder(s, at, hi);
  }

  /** The power reported in the coil of a word the wire carried as `x` steps, at most one more than the word's,
      is that of the whole steps: never more than what was played, and less by no more than the step above. */
  lemma DeliveredIsClose(s: Spec, w: int, x: real)
    requires ValidSpec(s) && Abs(w) as real <= x <= (Abs(w) + 1) as real
    ensures Delivered(s, w) <= Power(s, Steps(s, x)) <= Power(s, StepAbove(s, w))
    ensures x == Abs(w) as real ==> Delivered(s, w) == Power(s, Steps(s, x))
  {
    hide Power, Steps;
    var n, m := Abs(w) as real, (Abs(w) + 1) as real;
    StepsOfSize(s, w);
    SameSize(s, Steps(s, n), Steps(s, w as real));
    StepsOrder(s, n, x);
    StepsOrder(s, x, m);
    PowersBetween(s, Steps(s, n), Steps(s, x), Steps(s, m));
  }

  /** The power before the gain of a source at `a` of full scale. */
  function Source(s: Spec, a: real): real
    requires s.zNominal > 0.0
  {
    Power(s, a * s.vsScale)
  }

  /** The power before the gain that is reported is at least the source's: exactly, for an
      exact gain table; within twice the table's rounding otherwise; the cap included. */
  lemma InversionIsSound(c: Curves, s: Spec, w: int, possible: seq<Range>, i: nat, a: real, r: real, g: real, eps: real)
    requires Lawful(c) && ValidSpec(s) && Played(c, w, possible, i, a, r, g, eps)
    ensures Source(s, a * c.gain(2.0 * eps)) <= Before(c, s, w, possible)
    ensures eps == 0.0 ==> Source(s, a) <= Before(c, s, w, possible)
  {
    PlayedFits(c, w, possible, i, a, r, g, eps);
    SourceUnderUndone(c, s, w, a, r, g, eps, Converted(RoomOf(c, w), possible));
    SourceUnderFull(c, s, a, eps);
    GainZero(c);
  }

  lemma SourceUnderUndone(c: Curves, s: Spec, w: int, a: real, r: real, g: real, eps: real, db: real)
    requires Lawful(c) && ValidSpec(s) && 0.0 <= a && eps >= 0.0 && db >= r - eps
    requires c.gain(r + eps) <= g && a * g * FULL_WORD <= (Abs(w) + 1) as real
    ensures Source(s, a * c.gain(2.0 * eps)) <= Undone(c, s, w, db)
  {
    var k := c.gain(2.0 * eps);
    var m := StepAbove(s, w) * c.gain(-db);
    VoltageUndone(c, s, w, a, r, g, eps, db);
    UndoneIsPower(c, s, w, db, m);
    GainPositive(c, 2.0 * eps);
    assert a * k * s.vsScale == a * s.vsScale * k && a * k * s.vsScale >= 0.0 by {
      Nonneg(a, k);
      Nonneg(a * k, s.vsScale);
    }
    PowerOrder(s, a * k * s.vsScale, m);
  }

  lemma Fraction(a: real, k: real) returns (x: real)
    requires 0.0 <= a <= 1.0 && 0.0 <= k <= 1.0
    ensures x == a * k && 0.0 <= x <= 1.0
  {
    x := a * k;
    Nonneg(a, k);
    Nonneg(1.0 - a, k);
    assert k - x == (1.0 - a) * k;
  }

  lemma SourceAtMost(s: Spec, x: real)
    requires ValidSpec(s) && 0.0 <= x <= 1.0
    ensures Source(s, x) <= FullScale(s)
  {
    Nonneg(x, s.vsScale);
    Nonneg(1.0 - x, s.vsScale);
    assert s.vsScale - x * s.vsScale == (1.0 - x) * s.vsScale;
    PowerOrder(s, x * s.vsScale, s.vsScale);
  }

  lemma SourceUnderFull(c: Curves, s: Spec, a: real, eps: real)
    requires Lawful(c) && ValidSpec(s) && 0.0 <= a <= 1.0 && eps >= 0.0
    ensures Source(s, a * c.gain(2.0 * eps)) <= FullScale(s)
  {
    GainZero(c);
    GainPositive(c, 2.0 * eps);
    GainAntitone(c, 0.0, 2.0 * eps);
    var x := Fraction(a, c.gain(2.0 * eps));
    SourceAtMost(s, x);
  }
}
