/** The floor under every write (src/guard.rs, `floor_db`): the least reduction at which full scale
    held for as long as a daemon may be held up keeps every coil short of its limit. */
module Floor {
  import opened Config
  import opened Curves
  import opened Reals
  import opened Thermal
  import opened Speaker
  import opened GainLog
  import Latch
  import Placement

  const FLUSH_MARGIN_K := 3.0
  const HALVINGS := 24
  const GRID_SLACK := 0.000000001

  /** One driver as the floor sees it. */
  datatype Driver = Driver(spec: Spec, nodes: Nodes)

  /** Full scale at a reduction of `db` for `secs` stays the margin under the limit. */
  predicate Under(c: Curves, d: Driver, db: real, secs: real, ta: real)
    requires ValidSpec(d.spec)
  {
    PeakIf(c, d.spec, d.nodes, WorstCase(c, d.spec, db), secs, ta) < d.spec.tLimit - FLUSH_MARGIN_K
  }

  ghost predicate AllUnder(c: Curves, ds: seq<Driver>, db: real, secs: real, ta: real)
    requires ValidDrivers(ds)
  {
    forall i :: 0 <= i < |ds| ==> Under(c, ds[i], db, secs, ta)
  }

  ghost predicate ValidDrivers(ds: seq<Driver>) {
    forall i :: 0 <= i < |ds| ==> ValidSpec(ds[i].spec)
  }

  /** More reduction keeps it under. */
  lemma UnderStays(c: Curves, d: Driver, x: real, y: real, secs: real, ta: real)
    requires Lawful(c) && ValidSpec(d.spec) && x <= y && Under(c, d, x, secs, ta)
    ensures Under(c, d, y, secs, ta)
  {
    WorstCaseFalls(c, d.spec, x, y);
    if secs > 0.0 {
      Latch.HeatPeakMonotone(c, d.spec, d.nodes, WorstCase(c, d.spec, y), WorstCase(c, d.spec, x), secs, ta);
    }
  }

  /** The width left after `n` halvings. */
  function Halved(w: real, n: nat): real {
    if n == 0 then w else Halved(w, n - 1) / 2.0
  }

  function Pow2(n: nat): real {
    if n == 0 then 1.0 else 2.0 * Pow2(n - 1)
  }

  lemma {:induction false} HalvedIs(w: real, n: nat)
    ensures Halved(w, n) * Pow2(n) == w
  {
    if n > 0 {
      HalvedIs(w, n - 1);
      var h, p := Halved(w, n - 1), Pow2(n - 1);
      assert h / 2.0 * (2.0 * p) == h * p;
    }
  }

  lemma {:induction false} HalvedOrder(v: real, w: real, n: nat)
    requires v <= w
    ensures Halved(v, n) <= Halved(w, n)
  {
    if n > 0 { HalvedOrder(v, w, n - 1); }
  }

  lemma TwentyFourHalvings()
    ensures Halved(MUTE_DB, HALVINGS) == MUTE_DB / 16777216.0
  {
    HalvedIs(MUTE_DB, HALVINGS);
    assert Pow2(12) == 4096.0;
    assert Pow2(HALVINGS) == 16777216.0;
  }

  /** The bisection's resolution (dB). */
  const RESOLUTION := MUTE_DB / 16777216.0

  /** One driver: from a floor it is not under at, bisect, keeping the side that is. */
  method Bisect(c: Curves, d: Driver, floor: real, secs: real, ta: real) returns (hi: real)
    requires ValidSpec(d.spec) && 0.0 <= floor <= MUTE_DB && !Under(c, d, floor, secs, ta)
    ensures floor <= hi <= MUTE_DB
    ensures Under(c, d, hi, secs, ta) || hi == MUTE_DB
    ensures exists lo :: floor <= lo <= hi && hi - lo <= RESOLUTION && !Under(c, d, lo, secs, ta)
  {
    var lo;
    lo, hi := floor, MUTE_DB;
    var i := 0;
    while i < HALVINGS
      invariant 0 <= i <= HALVINGS && floor <= lo <= hi <= MUTE_DB
      invariant hi - lo == Halved(MUTE_DB - floor, i)
      invariant Under(c, d, hi, secs, ta) || hi == MUTE_DB
      invariant !Under(c, d, lo, secs, ta)
    {
      var mid := 0.5 * (lo + hi);
      if Under(c, d, mid, secs, ta) {
        hi := mid;
      } else {
        lo := mid;
      }
      i := i + 1;
    }
    HalvedOrder(MUTE_DB - floor, MUTE_DB, HALVINGS);
    TwentyFourHalvings();
  }

  /** The drivers' floor before it is rounded: every driver is under at it, if each is at MUTE_DB;
      and it is within the resolution of the least that has that. */
  method LeastFloor(c: Curves, ds: seq<Driver>, secs: real, ta: real) returns (floor: real)
    requires Lawful(c) && ValidDrivers(ds)
    ensures 0.0 <= floor <= MUTE_DB
    ensures AllUnder(c, ds, floor, secs, ta) <==> AllUnder(c, ds, MUTE_DB, secs, ta)
    ensures forall db :: 0.0 <= db < floor - RESOLUTION ==> !AllUnder(c, ds, db, secs, ta)
  {
    floor := 0.0;
    ghost var worst: nat, low := 0, 0.0;
    for i := 0 to |ds|
      invariant 0.0 <= floor <= MUTE_DB
      invariant forall k :: 0 <= k < i ==> Under(c, ds[k], floor, secs, ta) || floor == MUTE_DB
      invariant floor > 0.0 ==> worst < i && low <= floor <= low + RESOLUTION && !Under(c, ds[worst], low, secs, ta)
    {
      if !Under(c, ds[i], floor, secs, ta) {
        var raised := Bisect(c, ds[i], floor, secs, ta);
        forall k | 0 <= k < i ensures Under(c, ds[k], raised, secs, ta) || raised == MUTE_DB {
          if floor < MUTE_DB { UnderStays(c, ds[k], floor, raised, secs, ta); }
        }
        worst := i;
        low :| floor <= low <= raised && raised - low <= RESOLUTION && !Under(c, ds[i], low, secs, ta);
        floor := raised;
      }
    }
    FloorIsLeast(c, ds, floor, worst, low, secs, ta);
  }

  lemma FloorIsLeast(c: Curves, ds: seq<Driver>, floor: real, worst: nat, low: real, secs: real, ta: real)
    requires Lawful(c) && ValidDrivers(ds) && 0.0 <= floor <= MUTE_DB
    requires forall k :: 0 <= k < |ds| ==> Under(c, ds[k], floor, secs, ta) || floor == MUTE_DB
    requires floor > 0.0 ==> worst < |ds| && low <= floor <= low + RESOLUTION && !Under(c, ds[worst], low, secs, ta)
    ensures AllUnder(c, ds, floor, secs, ta) <==> AllUnder(c, ds, MUTE_DB, secs, ta)
    ensures forall db :: 0.0 <= db < floor - RESOLUTION ==> !AllUnder(c, ds, db, secs, ta)
  {
    if floor < MUTE_DB {
      forall k | 0 <= k < |ds| ensures Under(c, ds[k], MUTE_DB, secs, ta) { UnderStays(c, ds[k], floor, MUTE_DB, secs, ta); }
    }
    forall db | 0.0 <= db < floor - RESOLUTION ensures !AllUnder(c, ds, db, secs, ta) {
      if Under(c, ds[worst], db, secs, ta) { UnderStays(c, ds[worst], db, low, secs, ta); }
    }
  }

  /** Up to a whole number of `grid` steps. */
  function OnGrid(floor: real, grid: real): real {
    if grid > 0.0 && floor > 0.0 then Placement.Ceil(floor / grid - GRID_SLACK) as real * grid else floor
  }

  lemma OnGridIs(floor: real, grid: real)
    requires floor >= 0.0
    ensures OnGrid(floor, grid) + (if grid > 0.0 then GRID_SLACK * grid else 0.0) >= floor
    ensures OnGrid(floor, grid) < floor + (if grid > 0.0 then grid else 1.0)
    ensures OnGrid(floor, grid) >= 0.0
  {
    if grid > 0.0 && floor > 0.0 {
      var x := floor / grid;
      var n := Placement.Ceil(x - GRID_SLACK) as real;
      QuotientPositive(floor, grid);
      DivideTimes(floor, grid);
      LessThanStep(n, x, grid, floor);
      AtLeastFloor(n, x, grid, floor);
    }
  }

  lemma LessThanStep(n: real, x: real, grid: real, floor: real)
    requires grid > 0.0 && n < x + 1.0 && x * grid == floor && n >= 0.0
    ensures 0.0 <= n * grid < floor + grid
  {
    var d := x + 1.0 - n;
    Positive(d, grid);
    Nonneg(n, grid);
    assert d * grid == x * grid + grid - n * grid;
  }

  lemma AtLeastFloor(n: real, x: real, grid: real, floor: real)
    requires grid > 0.0 && x - GRID_SLACK <= n && x * grid == floor
    ensures n * grid + GRID_SLACK * grid >= floor
  {
    ScaleOrder(grid, x, n + GRID_SLACK);
  }

  /** The floor as it is written. Rounding up keeps every driver under, but for the slack; it costs
      less than a step. */
  method FloorDb(c: Curves, ds: seq<Driver>, secs: real, ta: real, grid: real) returns (floor: real)
    requires Lawful(c) && ValidDrivers(ds)
    ensures floor >= 0.0
    ensures AllUnder(c, ds, MUTE_DB, secs, ta) ==> AllUnder(c, ds, floor + Max(GRID_SLACK * grid, 0.0), secs, ta)
    ensures forall db | 0.0 <= db <= floor - Max(grid, 0.0) - RESOLUTION && db < floor - RESOLUTION ::
      !AllUnder(c, ds, db, secs, ta)
  {
    var least := LeastFloor(c, ds, secs, ta);
    floor := OnGrid(least, grid);
    OnGridIs(least, grid);
    if AllUnder(c, ds, MUTE_DB, secs, ta) {
      forall k | 0 <= k < |ds| ensures Under(c, ds[k], floor + Max(GRID_SLACK * grid, 0.0), secs, ta) {
        UnderStays(c, ds[k], least, floor + Max(GRID_SLACK * grid, 0.0), secs, ta);
      }
    }
  }
}
