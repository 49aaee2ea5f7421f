/** Audio already converted (src/guard.rs, `queue_threat`): it plays on whatever is written now, and
    only a hand-off stops it. */
module Threats {
  import opened Config
  import opened Curves
  import opened Reals
  import opened Thermal
  import opened Speaker
  import opened GainLog
  import Floor
  import Latch

  const FLUSH_JUMP_DB := 3.0
  const REACH_HORIZON := 0.1

  /** One driver as it is now: its thermal reduction, and the program as last seen. */
  datatype Seen = Seen(spec: Spec, nodes: Nodes, thermalDb: real, pRecent: real)

  ghost predicate ValidSeen(ds: seq<Seen>) {
    forall i :: 0 <= i < |ds| ==> ValidSpec(ds[i].spec)
  }

  /** The least reductions held that were not a mute. */
  function Audible(spans: seq<Span>): seq<real> {
    if spans == [] then []
    else
      var lo := Least(spans[|spans| - 1].gain.held);
      Audible(spans[..|spans| - 1]) + if lo < MUTE_DB then [lo] else []
  }

  function LeastOfAll(x: seq<real>): (m: real)
    requires x != []
    ensures m in x && forall i :: 0 <= i < |x| ==> m <= x[i]
  {
    var l := |x| - 1;
    if l == 0 then x[0]
    else
      var m := LeastOfAll(x[..l]);
      assert forall i :: 0 <= i < l ==> x[i] == x[..l][i];
      Min(m, x[l])
  }

  function MostOfAll(x: seq<real>): real
    requires x != []
  {
    var l := |x| - 1;
    if l == 0 then x[0] else Max(MostOfAll(x[..l]), x[l])
  }

  /** When the last of the entries at the least stopped holding. */
  function HeldTo(spans: seq<Span>, least: real, from: real): real {
    if spans == [] then from
    else
      var s := spans[|spans| - 1];
      var to := HeldTo(spans[..|spans| - 1], least, from);
      if Least(s.gain.held) <= least then Max(to, s.end) else to
  }

  function MostThermal(ds: seq<Seen>): real {
    if ds == [] then 0.0 else Max(MostThermal(ds[..|ds| - 1]), ds[|ds| - 1].thermalDb)
  }

  lemma {:induction false} MostThermalIs(ds: seq<Seen>, i: nat)
    requires i < |ds|
    ensures MostThermal(ds) >= ds[i].thermalDb
    decreases |ds|
  {
    if i < |ds| - 1 { MostThermalIs(ds[..|ds| - 1], i); }
  }

  /** `watts` for `secs` would take the coil within the margin of its limit. */
  predicate Reaches(c: Curves, d: Seen, watts: real, secs: real, ta: real)
    requires ValidSpec(d.spec)
  {
    PeakIf(c, d.spec, d.nodes, watts, secs, ta) >= d.spec.tLimit - Floor.FLUSH_MARGIN_K
  }

  /** Any program through the least reduction, before the next look. */
  predicate Reach(c: Curves, ds: seq<Seen>, least: real, ta: real)
    requires ValidSeen(ds)
  {
    exists i :: 0 <= i < |ds| && Reaches(c, ds[i], WorstCase(c, ds[i].spec, least), REACH_HORIZON, ta)
  }

  /** The program as last seen, on audio queued at the least. */
  predicate Queued(c: Curves, ds: seq<Seen>, least: real, most: real, plays: real, ta: real)
    requires ValidSeen(ds)
  {
    && MostThermal(ds) - least > FLUSH_JUMP_DB
    && exists i :: 0 <= i < |ds|
         && Reaches(c, ds[i], Min(BeforeGain(c, ds[i].pRecent, most - least), WorstCase(c, ds[i].spec, least)), plays,
                    ta)
  }

  /** The window whose conversions a look at `now` considers: QUEUE_BOUND, but not before the lock was taken. */
  function Since(unlockedAt: real, now: real): real {
    Max(now - QUEUE_BOUND, unlockedAt)
  }

  /** How long what was queued at the least still plays. */
  function Plays(gains: seq<Gain>, unlockedAt: real, copyQueue: real, now: real, least: real): real {
    var from := Since(unlockedAt, now);
    Min(Max(HeldTo(HeldSpans(gains, from, now), least, from) + copyQueue - now, 0.0), QUEUE_BOUND)
  }

  predicate Threat(c: Curves, ds: seq<Seen>, gains: seq<Gain>, unlockedAt: real, copyQueue: real, now: real, ta: real)
    requires ValidSeen(ds)
  {
    var los := Audible(HeldSpans(gains, Since(unlockedAt, now), now));
    && los != []
    && (var least := LeastOfAll(los);
        Reach(c, ds, least, ta)
        || Queued(c, ds, least, MostOfAll(los), Plays(gains, unlockedAt, copyQueue, now, least), ta))
  }

  lemma {:induction false} AudibleHas(spans: seq<Span>, i: nat)
    requires i < |spans| && Least(spans[i].gain.held) < MUTE_DB
    ensures Least(spans[i].gain.held) in Audible(spans)
    decreases |spans|
  {
    if i < |spans| - 1 { AudibleHas(spans[..|spans| - 1], i); }
  }

  lemma {:induction false} HeldToIs(spans: seq<Span>, least: real, from: real, k: nat)
    requires k < |spans| && Least(spans[k].gain.held) <= least
    ensures HeldTo(spans, least, from) >= spans[k].end
    decreases |spans|
  {
    if k < |spans| - 1 { HeldToIs(spans[..|spans| - 1], least, from, k); }
  }

  /** The controls really held `trace[i]` at some instant of the window, and it was no mute. */
  ghost predicate Alive(trace: seq<Real>, unlockedAt: real, now: real, i: nat) {
    && i < |trace| && trace[i].db < MUTE_DB
    && (i + 1 < |trace| ==> trace[i + 1].at > Since(unlockedAt, now))
  }

  /** What a log of up to `now` says of it: an entry no higher than what was held, up to when it went. */
  lemma {:induction false} AliveIsSpanned(gains: seq<Gain>, trace: seq<Real>, p: real, unlockedAt: real, now: real,
                                          i: nat) returns (k: nat)
    requires Covers(gains, trace, p) && Copies(gains, now) && p <= now - QUEUE_BOUND && unlockedAt <= now
    requires Alive(trace, unlockedAt, now, i)
    ensures var spans := HeldSpans(gains, Since(unlockedAt, now), now);
      && k < |spans| && Least(spans[k].gain.held) <= trace[i].db
      && spans[k].end >= (if i + 1 < |trace| then Min(trace[i + 1].at, now) else now)
      && Least(spans[k].gain.held) in Audible(spans)
  {
    var from := Since(unlockedAt, now);
    var j: int := |gains| - 1;
    if i + 1 < |trace| {
      j :| Lasts(gains, j, trace[i].db, trace[i + 1].at);
    }
    var e := NotAhead(gains, now, j);
    InSpans(gains, from, now, |gains|, e);
    k :| 0 <= k < |HeldSpans(gains, from, now)| && HeldSpans(gains, from, now)[k] == SpanAt(gains, now, e);
    AudibleHas(HeldSpans(gains, from, now), k);
  }

  /** The least and the most of the window: of any log, whatever it says. */
  function LeastHeld(gains: seq<Gain>, unlockedAt: real, now: real): real
    requires Audible(HeldSpans(gains, Since(unlockedAt, now), now)) != []
  {
    LeastOfAll(Audible(HeldSpans(gains, Since(unlockedAt, now), now)))
  }

  function MostHeld(gains: seq<Gain>, unlockedAt: real, now: real): real
    requires Audible(HeldSpans(gains, Since(unlockedAt, now), now)) != []
  {
    MostOfAll(Audible(HeldSpans(gains, Since(unlockedAt, now), now)))
  }

  /** Whatever the controls really held in the window was no less than the log's least; and if no more
      either, the log says so until it went. */
  lemma {:induction false} LeastIsHeld(gains: seq<Gain>, trace: seq<Real>, p: real, unlockedAt: real, now: real, i: nat)
    requires Covers(gains, trace, p) && Copies(gains, now) && p <= now - QUEUE_BOUND && unlockedAt <= now
    requires Alive(trace, unlockedAt, now, i)
    ensures Audible(HeldSpans(gains, Since(unlockedAt, now), now)) != []
    ensures LeastHeld(gains, unlockedAt, now) <= trace[i].db
    ensures var from, least := Since(unlockedAt, now), LeastHeld(gains, unlockedAt, now);
      trace[i].db <= least ==>
        HeldTo(HeldSpans(gains, from, now), least, from) >= if i + 1 < |trace| then Min(trace[i + 1].at, now) else now
  {
    hide Covers, Copies, Overlaps;
    var e := AliveIsSpanned(gains, trace, p, unlockedAt, now, i);
    var spans, least := HeldSpans(gains, Since(unlockedAt, now), now), LeastHeld(gains, unlockedAt, now);
    assert least <= Least(spans[e].gain.held);
    if trace[i].db <= least { HeldToIs(spans, least, Since(unlockedAt, now), e); }
  }

  lemma {:induction false} NoReach(c: Curves, ds: seq<Seen>, gains: seq<Gain>, unlockedAt: real, copyQueue: real,
                                   now: real, ta: real, k: nat)
    requires ValidSeen(ds) && !Threat(c, ds, gains, unlockedAt, copyQueue, now, ta) && k < |ds|
    requires Audible(HeldSpans(gains, Since(unlockedAt, now), now)) != []
    ensures var least := LeastHeld(gains, unlockedAt, now);
      !Reaches(c, ds[k], WorstCase(c, ds[k].spec, least), REACH_HORIZON, ta)
    ensures var least, most := LeastHeld(gains, unlockedAt, now), MostHeld(gains, unlockedAt, now);
      MostThermal(ds) - least > FLUSH_JUMP_DB ==>
        !Reaches(c, ds[k], Min(BeforeGain(c, ds[k].pRecent, most - least), WorstCase(c, ds[k].spec, least)),
                 Plays(gains, unlockedAt, copyQueue, now, least), ta)
  {
    hide Reaches, WorstCase, BeforeGain, Audible, HeldSpans, Plays, MostThermal;
  }

  lemma {:induction false} PeakIfMonotone(c: Curves, s: Spec, n: Nodes, p: real, q: real, secs: real, ta: real)
    requires Lawful(c) && ValidSpec(s) && p <= q
    ensures PeakIf(c, s, n, p, secs, ta) <= PeakIf(c, s, n, q, secs, ta)
  {
    hide HeatPeak;
    if secs > 0.0 { Latch.HeatPeakMonotone(c, s, n, p, q, secs, ta); }
  }

  /** Without a threat, no program at all through anything the controls really held since the window's
      start (but a mute) brings a coil within the margin of its limit before the next look. */
  lemma {:induction false} NoThreatHolds(c: Curves, ds: seq<Seen>, gains: seq<Gain>, trace: seq<Real>, p: real,
                                         unlockedAt: real, copyQueue: real, now: real, ta: real, i: nat, k: nat,
                                         watts: real)
    requires Lawful(c) && ValidSeen(ds) && !Threat(c, ds, gains, unlockedAt, copyQueue, now, ta)
    requires Covers(gains, trace, p) && Copies(gains, now) && p <= now - QUEUE_BOUND && unlockedAt <= now
    requires Alive(trace, unlockedAt, now, i)
    requires k < |ds| && watts <= WorstCase(c, ds[k].spec, trace[i].db)
    ensures PeakIf(c, ds[k].spec, ds[k].nodes, watts, REACH_HORIZON, ta) < ds[k].spec.tLimit - Floor.FLUSH_MARGIN_K
  {
    hide Covers, Copies, Threat, WorstCase, PeakIf, LeastHeld, Audible, HeldSpans, Plays;
    LeastIsHeld(gains, trace, p, unlockedAt, now, i);
    NoReach(c, ds, gains, unlockedAt, copyQueue, now, ta, k);
    var least := LeastHeld(gains, unlockedAt, now);
    WorstCaseFalls(c, ds[k].spec, least, trace[i].db);
    PeakIfMonotone(c, ds[k].spec, ds[k].nodes, watts, WorstCase(c, ds[k].spec, least), REACH_HORIZON, ta);
  }

  /** What a program seen to deliver `p` through a reduction of `r` delivers through `db`. */
  lemma {:induction false} DeliveredAt(c: Curves, p: real, r: real, db: real, most: real, least: real)
    requires Lawful(c) && p >= 0.0 && r <= most && least <= db
    ensures BeforeGain(c, p, r - db) <= BeforeGain(c, p, most - least)
  {
    var x, y := -Max(r - db, 0.0), -Max(most - least, 0.0);
    GainAntitone(c, y, x);
    GainPositive(c, x);
    var g, h := c.gain(x), c.gain(y);
    ScaleOrder(g, g, h);
    ScaleOrder(h, g, h);
    ScaleOrder(p, g * g, h * h);
  }

  /** Nor, once the coils ask for much more than the least held, does the program as last seen (through any
      reduction `r` of up to the most held) on audio converted at what the controls held: it keeps every
      coil short of the margin for as long as what was queued at the least still plays. */
  lemma {:induction false} QueueHolds(c: Curves, ds: seq<Seen>, gains: seq<Gain>, trace: seq<Real>, p: real,
                                      unlockedAt: real, copyQueue: real, now: real, ta: real, i: nat, k: nat, r: real,
                                      watts: real)
    requires Lawful(c) && ValidSeen(ds) && !Threat(c, ds, gains, unlockedAt, copyQueue, now, ta)
    requires Covers(gains, trace, p) && Copies(gains, now) && p <= now - QUEUE_BOUND && unlockedAt <= now
    requires Alive(trace, unlockedAt, now, i) && k < |ds| && ds[k].pRecent >= 0.0
    ensures Audible(HeldSpans(gains, Since(unlockedAt, now), now)) != []
    ensures var least, most := LeastHeld(gains, unlockedAt, now), MostHeld(gains, unlockedAt, now);
      && MostThermal(ds) - least > FLUSH_JUMP_DB && r <= most
      && watts <= Min(BeforeGain(c, ds[k].pRecent, r - trace[i].db), WorstCase(c, ds[k].spec, trace[i].db))
      ==> PeakIf(c, ds[k].spec, ds[k].nodes, watts, Plays(gains, unlockedAt, copyQueue, now, least), ta)
            < ds[k].spec.tLimit - Floor.FLUSH_MARGIN_K
  {
    hide Covers, Copies, Threat, WorstCase, BeforeGain, PeakIf, LeastHeld, MostHeld, Audible, HeldSpans, Plays, MostThermal;
    LeastIsHeld(gains, trace, p, unlockedAt, now, i);
    NoReach(c, ds, gains, unlockedAt, copyQueue, now, ta, k);
    var least, most := LeastHeld(gains, unlockedAt, now), MostHeld(gains, unlockedAt, now);
    WorstCaseFalls(c, ds[k].spec, least, trace[i].db);
    if r <= most {
      DeliveredAt(c, ds[k].pRecent, r, trace[i].db, most, least);
      var top := Min(BeforeGain(c, ds[k].pRecent, most - least), WorstCase(c, ds[k].spec, least));
      var plays := Plays(gains, unlockedAt, copyQueue, now, least);
      if watts <= top { PeakIfMonotone(c, ds[k].spec, ds[k].nodes, watts, top, plays, ta); }
    }
  }
}
