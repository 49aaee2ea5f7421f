/** The magnet's bound where the magnet is not the much slower node (src/boot.rs, `magnet_bound_in`, its
    first branch): there "nothing over the hard limit" is no bound of a magnet. What the hottest magnet
    is instead, and exactly when the limit bounds it. */
module FastMagnet {
  import opened Config
  import opened Curves
  import opened Evidence
  import opened Options
  import opened Reals

  /** A program the bound is asked for: protected, gentle, no longer than the time since when that is
      known, from nodes at or over `lo` and a magnet of at most `m0`. */
  ghost predicate Allowed(s: Spec, limit: real, ta: real, lo: real, m0: real, d: Option<real>, n: State, bs: seq<Beat>)
    requires ValidSpec(s)
  {
    && lo <= n.coil && lo <= n.magnet <= m0
    && Protected(s, limit, ta, n, bs) && Gentle(s, bs)
    && (d.Some? ==> Duration(bs) <= d.value)
  }

  /** None of them leaves the magnet over `top`. */
  ghost predicate Kept(s: Spec, limit: real, ta: real, lo: real, m0: real, d: Option<real>, top: real)
    requires ValidSpec(s)
  {
    forall n: State, bs: seq<Beat> ::
      Allowed(s, limit, ta, lo, m0, d, n, bs) ==> After(s, ta, n, bs).magnet <= top
  }

  /** Room for a burst that takes the coil from `lo` to the limit at once: what it adds to a magnet of
      `m` stays at or under `top`. */
  predicate Fits(s: Spec, limit: real, lo: real, m: real, top: real) {
    s.trMagnet * s.tauCoil * (limit - lo) <= s.trCoil * s.tauMagnet * (top - m)
  }

  // ---- the combination never rises ---------------------------------------------------------------

  lemma PullFast(c: real, m: real, dt: real, tc: real, tm: real, r: real, ta: real, lo: real, star: real, e: real,
                 x: real, y: real)
    requires tm > 0.0 && r > 0.0 && StarOf(star, tc, tm, r, ta, lo, e) && x * tm == (1.0 + r) * dt
    requires dt >= 0.0 && e >= 1.0 && lo <= c && y == tm * m - r * tc * c
    ensures y + Pull(dt, r, ta, c, m) - star <= Times(1.0 - x, y - star)
  {
    hide StarOf, Back, Pull, Times;
    PullTerms(c, m, dt, tc, tm, r, ta, lo, star, e, x, y);
    FastBack(dt, r, e, lo, c);
  }

  lemma ShrunkUnder(k: real, g: real, top: real)
    requires 0.0 <= k <= 1.0 && g <= top && top >= 0.0
    ensures Times(k, g) <= top
  {
    ScaleOrder(k, g, top);
    ScaleOrder(top, k, 1.0);
  }

  lemma FastBack(dt: real, r: real, e: real, lo: real, c: real)
    requires dt >= 0.0 && r > 0.0 && e >= 1.0 && lo <= c
    ensures Back(dt, r, e, lo, c) >= 0.0
  {
    Nonneg(dt, r);
    Nonneg(dt * r, e - 1.0);
    Nonneg(dt * r * (e - 1.0), c - lo);
    assert dt * r * (1.0 - e) * (lo - c) == dt * r * (e - 1.0) * (c - lo);
  }

  /** With the coil at or over `lo` the combination closes on its star there at least as fast: where the
      coil's pull was the danger, it now only helps. */
  lemma FastStepContracts(s: Spec, ta: real, lo: real, n: State, b: Beat)
    requires ValidSpec(s) && Slowness(s) >= 1.0 && n.coil >= lo && b.dt >= 0.0
    ensures Gap(s, lo, ta, Next(s, ta, n, b)) <= Times(Rest(s, b.dt), Gap(s, lo, ta, n))
  {
    hide Next, YStar, Slowness, Ratio, Pull, Times;
    PowerDropsOut(s, ta, n, b);
    RatioPositive(s);
    StarTerms(s, lo, ta);
    ClosedTimes(s, b.dt);
    PullFast(n.coil, n.magnet, b.dt, s.tauCoil, s.tauMagnet, Ratio(s), ta, lo, YStar(s, lo, ta), Slowness(s),
             Closed(s, b.dt), Y(s, n));
  }

  /** So it stays under whatever is over it and its star. */
  lemma StepStaysUnder(s: Spec, ta: real, lo: real, n: State, b: Beat, top: real)
    requires ValidSpec(s) && Slowness(s) >= 1.0 && n.coil >= lo && b.dt >= 0.0 && Closed(s, b.dt) <= 1.0
    requires YStar(s, lo, ta) <= top && Y(s, n) <= top
    ensures Y(s, Next(s, ta, n, b)) <= top
  {
    hide Next, YStar, Slowness, Times, Closed, Y;
    FastStepContracts(s, ta, lo, n, b);
    ClosedNonneg(s, b.dt);
    ShrunkUnder(Rest(s, b.dt), Gap(s, lo, ta, n), top - YStar(s, lo, ta));
  }

  lemma {:induction false} StaysUnder(s: Spec, limit: real, ta: real, lo: real, n: State, bs: seq<Beat>, top: real)
    requires ValidSpec(s) && Slowness(s) >= 1.0 && lo <= ta && lo <= n.coil && lo <= n.magnet
    requires Protected(s, limit, ta, n, bs) && Gentle(s, bs)
    requires YStar(s, lo, ta) <= top && Y(s, n) <= top
    ensures Y(s, After(s, ta, n, bs)) <= top
  {
    if bs != [] {
      var l := |bs| - 1;
      ProtectedFront(s, limit, ta, n, bs);
      StaysUnder(s, limit, ta, lo, n, bs[..l], top);
      StaysWarm(s, ta, lo, n, bs[..l]);
      StepStaysUnder(s, ta, lo, After(s, ta, n, bs[..l]), bs[l], top);
    }
  }

  /** The combination of a magnet at `m` and a coil at `lo`. */
  function Cold(s: Spec, m: real, lo: real): real
    requires ValidSpec(s)
  {
    s.tauMagnet * m - Ratio(s) * s.tauCoil * lo
  }

  /** It is over the star there, if the magnet is over that of a coil held at `lo`. */
  lemma StarIsUnder(s: Spec, ta: real, lo: real, m: real)
    requires ValidSpec(s) && MStar(s, lo, ta) <= m
    ensures YStar(s, lo, ta) <= Cold(s, m, lo)
  {
    StarIsMStar(s, lo, ta);
    hide YStar, MStar, Ratio;
    var y := YStar(s, lo, ta) + Ratio(s) * s.tauCoil * lo;
    DivideTimes(y, s.tauMagnet);
    ScaleOrder(s.tauMagnet, MStar(s, lo, ta), m);
  }

  lemma StartIsUnder(s: Spec, n: State, lo: real, m: real)
    requires ValidSpec(s) && lo <= n.coil && n.magnet <= m
    ensures Y(s, n) <= Cold(s, m, lo)
  {
    RatioPositive(s);
    Nonneg(Ratio(s), s.tauCoil);
    ScaleOrder(s.tauMagnet, n.magnet, m);
    ScaleOrder(Ratio(s) * s.tauCoil, lo, n.coil);
  }

  /** A magnet whose combination and coil are bounded, against the room for a burst. */
  lemma RoomIsEnough(m: real, c: real, y: real, m0: real, lo: real, limit: real, top: real, r: real, rc: real, rm: real,
                     tc: real, tm: real)
    requires rc > 0.0 && tm > 0.0 && tc > 0.0 && r > 0.0 && r * rc == rm && c <= limit
    requires y == tm * m - r * tc * c && y <= tm * m0 - r * tc * lo
    requires rm * tc * (limit - lo) <= rc * tm * (top - m0)
    ensures m <= top
  {
    var k := r * tc;
    Nonneg(r, tc);
    ScaleOrder(k, c, limit);
    var u, v := tm * m, tm * m0 + k * (limit - lo);
    assert u <= v;
    assert rm * tc * (limit - lo) == rc * (k * (limit - lo));
    ScaleOrder(rc, u, v);
    assert rc * u <= rc * (tm * top);
    Unscale(rc, u, tm * top);
    Unscale(tm, m, top);
  }

  /** With room for the burst from the warmer of the saved magnet and that of a coil held at `lo`, every
      program is kept. */
  lemma FitsKeeps(s: Spec, limit: real, ta: real, lo: real, m0: real, d: Option<real>, top: real, n: State, bs: seq<Beat>)
    requires ValidSpec(s) && Slowness(s) >= 1.0 && lo <= ta && Allowed(s, limit, ta, lo, m0, d, n, bs)
    requires Fits(s, limit, lo, Max(m0, MStar(s, lo, ta)), top)
    ensures After(s, ta, n, bs).magnet <= top
  {
    var m := Max(m0, MStar(s, lo, ta));
    StarIsUnder(s, ta, lo, m);
    StartIsUnder(s, n, lo, m);
    StaysUnder(s, limit, ta, lo, n, bs, Cold(s, m, lo));
    assert bs[..|bs|] == bs;
    EndFits(s, limit, lo, m, top, After(s, ta, n, bs));
  }

  lemma EndFits(s: Spec, limit: real, lo: real, m: real, top: real, end: State)
    requires ValidSpec(s) && end.coil <= limit && Y(s, end) <= Cold(s, m, lo) && Fits(s, limit, lo, m, top)
    ensures end.magnet <= top
  {
    RatioPositive(s);
    hide Ratio;
    RoomIsEnough(end.magnet, end.coil, Y(s, end), m, lo, limit, top, Ratio(s), s.trCoil, s.trMagnet, s.tauCoil, s.tauMagnet);
  }

  // ---- a short burst from the coldest coil ---------------------------------------------------------

  lemma Lesser(a: real, b: real) returns (x: real)
    requires a > 0.0 && b > 0.0
    ensures 0.0 < x <= a && x <= b
  {
    x := Min(a, b);
  }

  /** Any step of at most `x` is short of `p` at the rate `y`. */
  ghost predicate ShortOf(x: real, y: real, p: real) {
    forall dt: real :: 0.0 < dt <= x ==> Times(dt, y) < p
  }

  lemma Short(y: real, p: real) returns (x: real)
    requires p > 0.0
    ensures x > 0.0 && ShortOf(x, y, p)
  {
    var q := Max(y, 0.0) + 1.0;
    x := p / q;
    QuotientPositive(p, q);
    DivideTimes(p, q);
    forall dt: real | 0.0 < dt <= x ensures Times(dt, y) < p {
      ScaleOrder(q, dt, x);
      ScaleStrict(dt, y, q);
    }
  }

  /** A step so short that the burst can be given in it, the magnet drifts less than `room`, and it is
      gentle and no longer than the time since. */
  lemma ShortStep(s: Spec, rise: real, fall: real, room: real, drift: real, d: Option<real>) returns (dt: real)
    requires ValidSpec(s) && rise > 0.0 && room > 0.0 && (d.Some? ==> d.value > 0.0)
    ensures 0.0 < dt <= s.tauCoil && dt <= s.tauMagnet && Times(dt, 1.0 + Ratio(s)) <= s.tauMagnet
    ensures Times(dt, fall) <= Times(rise, s.tauCoil) && Times(dt, drift) < room && (d.Some? ==> dt <= d.value)
  {
    Positive(rise, s.tauCoil);
    assert Times(rise, s.tauCoil) > 0.0;
    hide Times, Ratio;
    var a := Short(1.0 + Ratio(s), s.tauMagnet);
    var b := Short(fall, Times(rise, s.tauCoil));
    var e := Short(drift, room);
    dt := Lesser(s.tauCoil, s.tauMagnet);
    dt := Lesser(dt, a);
    dt := Lesser(dt, b);
    dt := Lesser(dt, e);
    if d.Some? { dt := Lesser(dt, d.value); }
  }

  /** The power that takes the coil from `lo` to the limit in one step. */
  function BurstWatts(s: Spec, limit: real, lo: real, m0: real, dt: real): real
    requires ValidSpec(s) && dt > 0.0
  {
    ((limit - lo) * s.tauCoil / dt + lo - m0) / s.trCoil
  }

  lemma BurstCoil(s: Spec, limit: real, lo: real, m0: real, dt: real)
    requires ValidSpec(s) && dt > 0.0 && Times(dt, m0 - lo) <= Times(limit - lo, s.tauCoil)
    ensures var w := BurstWatts(s, limit, lo, m0, dt);
      w >= 0.0 && Toward(lo, m0 + w * s.trCoil, dt, s.tauCoil) == limit
  {
    var q := (limit - lo) * s.tauCoil / dt;
    DivideTimes((limit - lo) * s.tauCoil, dt);
    QuotientOver(m0 - lo, (limit - lo) * s.tauCoil, dt);
    QuotientNonneg(q + lo - m0, s.trCoil);
    DivideTimes(q + lo - m0, s.trCoil);
    var w := BurstWatts(s, limit, lo, m0, dt);
    CoilMoves(lo, m0 + w * s.trCoil, dt, s.tauCoil);
    hide BurstWatts, Toward;
    var end := Toward(lo, m0 + w * s.trCoil, dt, s.tauCoil);
    assert s.tauCoil * (end - lo) == q * dt;
    Cancel(s.tauCoil, end - lo, limit - lo);
  }

  /** How fast the ambient and a coil at `lo` pull the combination of a magnet at `m0` down. */
  function Drift(s: Spec, ta: real, lo: real, m0: real): real
    requires ValidSpec(s)
  {
    (1.0 + Ratio(s)) * m0 - ta - Ratio(s) * lo
  }

  /** What a burst from `lo` to the limit would take the combination of a magnet at `top` over. */
  function Room(s: Spec, limit: real, lo: real, m0: real, top: real): real
    requires ValidSpec(s)
  {
    Ratio(s) * s.tauCoil * (limit - lo) - s.tauMagnet * (top - m0)
  }

  lemma PullIsDrift(s: Spec, ta: real, lo: real, m0: real, dt: real)
    requires ValidSpec(s)
    ensures Pull(dt, Ratio(s), ta, lo, m0) == -Times(dt, Drift(s, ta, lo, m0))
  {
    hide Ratio;
  }

  lemma BurstRoom(s: Spec, limit: real, lo: real, m0: real, top: real, m: real, pull: real)
    requires ValidSpec(s) && -pull < Room(s, limit, lo, m0, top)
    requires Y(s, State(limit, m)) == Y(s, State(lo, m0)) + pull
    ensures m > top
  {
    var r := Ratio(s);
    hide Ratio;
    assert s.tauMagnet * m > s.tauMagnet * top;
    if m <= top { ScaleOrder(s.tauMagnet, m, top); }
  }

  lemma NoRoom(s: Spec, limit: real, lo: real, m0: real, top: real)
    requires ValidSpec(s) && !Fits(s, limit, lo, m0, top)
    ensures Room(s, limit, lo, m0, top) > 0.0
  {
    RatioPositive(s);
    var r := Ratio(s);
    hide Ratio;
    var u, v := r * s.tauCoil * (limit - lo), s.tauMagnet * (top - m0);
    assert s.trMagnet * s.tauCoil * (limit - lo) == s.trCoil * u;
    if u <= v { ScaleOrder(s.trCoil, u, v); }
  }

  lemma OneBeat(s: Spec, ta: real, n: State, b: Beat)
    requires ValidSpec(s)
    ensures After(s, ta, n, [b]) == Next(s, ta, n, b) && Duration([b]) == b.dt
  {
    assert [b][..0] == [];
    assert After(s, ta, n, []) == n;
  }

  lemma ClosesWithin(s: Spec, dt: real)
    requires ValidSpec(s) && Times(dt, 1.0 + Ratio(s)) <= s.tauMagnet
    ensures Closed(s, dt) <= 1.0
  {
    ClosedTimes(s, dt);
    hide Closed, Ratio;
    Unscale(s.tauMagnet, Closed(s, dt), 1.0);
  }

  lemma OneBeatAllowed(s: Spec, limit: real, ta: real, lo: real, m0: real, d: Option<real>, b: Beat)
    requires ValidSpec(s) && lo <= m0 && lo <= limit && 0.0 <= b.dt <= s.tauCoil && b.dt <= s.tauMagnet
    requires Times(b.dt, 1.0 + Ratio(s)) <= s.tauMagnet && b.watts >= 0.0 && (d.Some? ==> b.dt <= d.value)
    requires Next(s, ta, State(lo, m0), b).coil <= limit
    ensures Allowed(s, limit, ta, lo, m0, d, State(lo, m0), [b])
  {
    var n, bs := State(lo, m0), [b];
    ClosesWithin(s, b.dt);
    OneBeat(s, ta, n, b);
    hide Closed, Ratio, Next;
    assert After(s, ta, n, bs[..0]) == n by { assert bs[..0] == []; }
    assert bs[..1] == bs;
  }

  /** What is left of the room when the burst is over. */
  lemma BurstEnds(s: Spec, limit: real, ta: real, lo: real, m0: real, top: real, b: Beat)
    requires ValidSpec(s) && Next(s, ta, State(lo, m0), b).coil == limit
    requires Times(b.dt, Drift(s, ta, lo, m0)) < Room(s, limit, lo, m0, top)
    ensures Next(s, ta, State(lo, m0), b).magnet > top
  {
    PowerDropsOut(s, ta, State(lo, m0), b);
    PullIsDrift(s, ta, lo, m0, b.dt);
    hide Next, Ratio, Pull, Times, Room, Drift, Y;
    BurstRoom(s, limit, lo, m0, top, Next(s, ta, State(lo, m0), b).magnet, Pull(b.dt, Ratio(s), ta, lo, m0));
  }

  /** Without room for it some burst takes the magnet past `top`. */
  lemma BurstPasses(s: Spec, limit: real, ta: real, lo: real, m0: real, d: Option<real>, top: real) returns (bs: seq<Beat>)
    requires ValidSpec(s) && lo <= m0 && lo <= limit && (d.Some? ==> d.value > 0.0)
    requires !Fits(s, limit, lo, m0, top)
    ensures Allowed(s, limit, ta, lo, m0, d, State(lo, m0), bs) && After(s, ta, State(lo, m0), bs).magnet > top
  {
    var n := State(lo, m0);
    NoRoom(s, limit, lo, m0, top);
    if lo == limit {
      bs := [];
      assert bs[..0] == [];
      if top >= m0 { Nonneg(s.tauMagnet, top - m0); }
    } else {
      hide Room, Next, Drift, Ratio, Allowed, Times, Fits, After;
      var b := BurstWithin(s, limit, ta, lo, m0, d, Room(s, limit, lo, m0, top));
      BurstEnds(s, limit, ta, lo, m0, top, b);
      OneBeatAllowed(s, limit, ta, lo, m0, d, b);
      OneBeat(s, ta, n, b);
      bs := [b];
    }
  }

  /** A burst that leaves the magnet's drift under `room`. */
  lemma BurstWithin(s: Spec, limit: real, ta: real, lo: real, m0: real, d: Option<real>, room: real) returns (b: Beat)
    requires ValidSpec(s) && lo <= m0 && lo < limit && room > 0.0 && (d.Some? ==> d.value > 0.0)
    ensures 0.0 <= b.dt <= s.tauCoil && b.dt <= s.tauMagnet && Times(b.dt, 1.0 + Ratio(s)) <= s.tauMagnet
    ensures b.watts >= 0.0 && (d.Some? ==> b.dt <= d.value)
    ensures Next(s, ta, State(lo, m0), b).coil == limit
    ensures Times(b.dt, Drift(s, ta, lo, m0)) < room
  {
    hide Ratio, Drift;
    var dt := ShortStep(s, limit - lo, m0 - lo, room, Drift(s, ta, lo, m0), d);
    hide Toward, BurstWatts, Times;
    BurstCoil(s, limit, lo, m0, dt);
    b := Beat(dt, BurstWatts(s, limit, lo, m0, dt));
  }

  // ---- exactly when ------------------------------------------------------------------------------------

  /** So the hottest magnet is known: whatever the bound `top`, it holds of every program if and only if a
      burst from the coldest start fits under it. A saved magnet under that of a coil held at `lo` counts
      as that one (`FitsKeeps`). */
  lemma KeptIff(s: Spec, limit: real, ta: real, lo: real, m0: real, d: Option<real>, top: real)
    requires ValidSpec(s) && Slowness(s) >= 1.0 && lo <= ta && lo <= limit && lo <= m0 && MStar(s, lo, ta) <= m0
    requires d.Some? ==> d.value > 0.0
    ensures Kept(s, limit, ta, lo, m0, d, top) <==> Fits(s, limit, lo, m0, top)
  {
    if Fits(s, limit, lo, m0, top) {
      forall n: State, bs: seq<Beat> | Allowed(s, limit, ta, lo, m0, d, n, bs)
        ensures After(s, ta, n, bs).magnet <= top
      {
        FitsKeeps(s, limit, ta, lo, m0, d, top, n, bs);
      }
    } else {
      var bs := BurstPasses(s, limit, ta, lo, m0, d, top);
    }
  }

  /** The formula's bound from a saved magnet, in its first branch. */
  lemma SavedBoundIff(c: Curves, s: Spec, limit: real, ta: real, cLo: real, m0: real, d: Option<real>)
    requires ValidSpec(s) && Slowness(s) >= 1.0 && (d.Some? ==> d.value > 0.0)
    requires Min(cLo, ta) <= limit && Min(cLo, ta) <= m0 && MStar(s, Min(cLo, ta), ta) <= m0
    ensures Kept(s, limit, ta, Min(cLo, ta), m0, d, MagnetBoundIn(c, s, limit, ta, cLo, Some(m0), d))
       <==> Fits(s, limit, Min(cLo, ta), m0, Max(m0, limit))
  {
    KeptIff(s, limit, ta, Min(cLo, ta), m0, d, Max(m0, limit));
  }

  /** Every protected and gentle program from the ambient leaves the magnet at or under `top`. */
  ghost predicate KeptFromAmbient(s: Spec, limit: real, ta: real, top: real)
    requires ValidSpec(s)
  {
    forall bs: seq<Beat> ::
      Allowed(s, limit, ta, ta, ta, None, State(ta, ta), bs) ==> After(s, ta, State(ta, ta), bs).magnet <= top
  }

  lemma FitsFromAmbient(s: Spec, limit: real, ta: real)
    requires ta < limit
    ensures Fits(s, limit, ta, ta, limit) <==> s.trMagnet * s.tauCoil <= s.trCoil * s.tauMagnet
  {
    var u, v, rise := s.trMagnet * s.tauCoil, s.trCoil * s.tauMagnet, limit - ta;
    if u <= v { ScaleOrder(rise, u, v); }
    if u * rise <= v * rise { Unscale(rise, u, v); }
  }

  lemma SlowIsUnder(s: Spec)
    requires ValidSpec(s) && Slowness(s) < 1.0
    ensures s.trMagnet * s.tauCoil <= s.trCoil * s.tauMagnet
  {
    RatioPositive(s);
    StarTerms(s, 0.0, 0.0);
    var r, e := Ratio(s), Slowness(s);
    hide Ratio, Slowness;
    ScaleOrder(s.tauMagnet, e, 1.0);
    var u := r * s.tauCoil;
    assert u <= s.tauMagnet;
    ScaleOrder(s.trCoil, u, s.tauMagnet);
    assert s.trCoil * u == s.trMagnet * s.tauCoil;
  }

  lemma MStarUnder(s: Spec, limit: real, ta: real)
    requires ValidSpec(s) && ta <= limit
    ensures ta <= MStar(s, ta, ta) <= ta && MStar(s, limit, ta) <= limit
  {
    RatioPositive(s);
    var r := Ratio(s);
    hide Ratio;
    DivideOrder(ta + r * limit, limit, 1.0 + r);
    DivideOrder(ta + r * ta, ta, 1.0 + r);
    QuotientOver(ta, ta + r * ta, 1.0 + r);
  }

  /** For any configuration: no program from the ambient takes the magnet past the coil's limit if and
      only if the magnet, its resistance over the coil's, is no quicker than the coil; and the formula's
      bound without a saved magnet holds of all of them exactly then. */
  lemma FromAmbientIff(c: Curves, s: Spec, limit: real, ta: real, cLo: real, d: Option<real>)
    requires Lawful(c) && ValidSpec(s) && ta < limit
    ensures KeptFromAmbient(s, limit, ta, limit) <==> s.trMagnet * s.tauCoil <= s.trCoil * s.tauMagnet
    ensures KeptFromAmbient(s, limit, ta, MagnetBoundIn(c, s, limit, ta, cLo, None, d))
       <==> s.trMagnet * s.tauCoil <= s.trCoil * s.tauMagnet
  {
    if Slowness(s) < 1.0 {
      SlowFromAmbient(c, s, limit, ta, cLo, d);
    } else {
      FastFromAmbient(s, limit, ta);
    }
  }

  lemma SlowFromAmbient(c: Curves, s: Spec, limit: real, ta: real, cLo: real, d: Option<real>)
    requires Lawful(c) && ValidSpec(s) && ta < limit && Slowness(s) < 1.0
    ensures s.trMagnet * s.tauCoil <= s.trCoil * s.tauMagnet
    ensures KeptFromAmbient(s, limit, ta, limit)
    ensures KeptFromAmbient(s, limit, ta, MagnetBoundIn(c, s, limit, ta, cLo, None, d))
  {
    SlowIsUnder(s);
    MStarUnder(s, limit, ta);
    hide After, Slowness, MagnetBoundIn, MStar;
    forall bs: seq<Beat> | Allowed(s, limit, ta, ta, ta, None, State(ta, ta), bs)
      ensures After(s, ta, State(ta, ta), bs).magnet <= limit
      ensures After(s, ta, State(ta, ta), bs).magnet <= MagnetBoundIn(c, s, limit, ta, cLo, None, d)
    {
      FromAmbientUnderMStar(s, limit, ta, ta, bs);
      UnknownMagnetUnderBound(c, s, limit, ta, cLo, d, ta, bs);
    }
  }

  lemma FastFromAmbient(s: Spec, limit: real, ta: real)
    requires ValidSpec(s) && ta < limit && Slowness(s) >= 1.0
    ensures KeptFromAmbient(s, limit, ta, limit) <==> s.trMagnet * s.tauCoil <= s.trCoil * s.tauMagnet
  {
    MStarUnder(s, limit, ta);
    FitsFromAmbient(s, limit, ta);
    hide After, Slowness, MStar, Allowed, Fits;
    if Fits(s, limit, ta, ta, limit) {
      forall bs: seq<Beat> | Allowed(s, limit, ta, ta, ta, None, State(ta, ta), bs)
        ensures After(s, ta, State(ta, ta), bs).magnet <= limit
      {
        FitsKeeps(s, limit, ta, ta, ta, None, limit, State(ta, ta), bs);
      }
    } else {
      var bs := BurstPasses(s, limit, ta, ta, ta, None, limit);
    }
  }

  // ---- an input ---------------------------------------------------------------------------------------

  /** A small magnet on a slow coil, 100 W at full scale. */
  const QUICK := Spec("", 1.0, 100.0, 1.0, 1.0, 1.0, 0.0, 1.0, 10.0, 0, 0.0, 0.0)
  const GLOBALS := Globals(0.0, 0.0, 0.01, 12.0, 20.0, 1, 1)

  /** The daemon accepts it, bounds its magnet by the limit of 1 with and without a saved one, and half a
      second of 10 W takes the magnet to 5 with the coil at a twentieth. */
  lemma HalfASecondPasses(c: Curves, d: Option<real>)
    requires d.Some? ==> d.value >= 0.5
    ensures Accepted(GLOBALS, QUICK) && Slowness(QUICK) >= 1.0
    ensures Allowed(QUICK, 1.0, 0.0, 0.0, 0.0, d, State(0.0, 0.0), [Beat(0.5, 10.0)])
    ensures After(QUICK, 0.0, State(0.0, 0.0), [Beat(0.5, 10.0)]) == State(0.05, 5.0)
    ensures MagnetBoundIn(c, QUICK, 1.0, 0.0, 0.0, None, d) == 1.0
    ensures MagnetBoundIn(c, QUICK, 1.0, 0.0, 0.0, Some(0.0), d) == 1.0
  {
    var b := Beat(0.5, 10.0);
    OneBeat(QUICK, 0.0, State(0.0, 0.0), b);
    assert Ratio(QUICK) == 1.0 && Slowness(QUICK) == 200.0;
    OneBeatAllowed(QUICK, 1.0, 0.0, 0.0, 0.0, d, b);
  }
}
