/** The machine as the guard sees it (src/guard.rs, `trait Hw`): any card that keeps this contract.
    Time passes inside every call; control writes fail, land in part, or round up; a ping may find
    the lease gone; files fail to be written. */
module Cards {
  import opened Codec
  import opened Options
  import opened Marker
  import opened Restart
  import opened GainLog
  import opened Reals

  /** The kernel's lock timeout. */
  const KERNEL_LOCK_TIMEOUT := 0.25

  /** A call's result: an error worth retrying, or one that is not. */
  datatype Answer<T> = Ok(value: T) | Transient | Broken

  datatype PingAnswer = Taken | TimedOut | Refused

  /** A sense period: whole, short or overrun, or none within a poll. */
  datatype Reading = Whole(words: seq<int>) | Short | Nothing

  /** What the controls really held is added to, inside a call from `t0` to `t1`, never under `least`. */
  ghost predicate Moved(was: seq<Real>, now: seq<Real>, t0: real, t1: real, least: real) {
    && was <= now
    && (forall i :: |was| <= i < |now| ==> t0 <= now[i].at <= t1 && now[i].db >= least)
  }

  class Card {
    /** The card's change events are delivered. */
    const events: bool
    /** The controls' step (dB); none if 0. */
    const step: real
    const bootId: Option<string>
    /** Which run of the daemon this one is. */
    const life: nat

    var clock: real
    /** What the controls really held, and since when. */
    var trace: seq<Real>
    /** When the card last took a ping: the lease runs from there. */
    var leased: real
    var pings: nat
    /** How many calls did not do what was asked of them, what the sense capture said, and what was said of the card's
        own level. */
    ghost var failed: nat
    ghost var periods: seq<Answer<Reading>>
    ghost var positions: seq<Answer<nat>>
    ghost var tails: seq<seq<int>>
    ghost var levels: seq<Option<real>>
    /** What lies at this run's paths. */
    var disk: Disk

    ghost predicate Valid()
      reads this
    {
      && step >= 0.0 && trace != []
      && (forall i :: 0 <= i < |trace| ==> trace[i].at <= clock && trace[i].db >= 0.0)
    }

    function Really(): real
      requires trace != []
      reads this
    {
      trace[|trace| - 1].db
    }

    constructor (events: bool, step: real, bootId: Option<string>, life: nat, disk: Disk, level: real)
      requires step >= 0.0 && level >= 0.0
      ensures Valid() && this.events == events && this.step == step && this.bootId == bootId && this.life == life
      ensures this.disk == disk
    {
      this.events, this.step, this.bootId, this.life, this.disk := events, step, bootId, life, disk;
      clock, trace, leased, pings := 0.0, [Real(0.0, level)], 0.0, 0;
      failed, periods, positions, tails, levels := 0, [], [], [], [];
    }

    /** A call that failed. */
    ghost method Count(ok: bool)
      modifies `failed
      ensures failed == old(failed) + if ok then 0 else 1
    {
      if !ok { failed := failed + 1; }
    }

    /** Any time may pass. */
    method Elapse()
      requires Valid()
      modifies `clock
      ensures Valid() && clock >= old(clock)
    {
      var d: real := *;
      if d > 0.0 { clock := clock + d; }
    }

    method Now() returns (t: real)
      requires Valid()
      modifies `clock
      ensures Valid() && t == clock >= old(clock)
    {
      Elapse();
      t := clock;
    }

    /** The controls take some value from `least` up. */
    method Move(least: real)
      requires Valid() && least >= 0.0
      modifies `clock, `trace
      ensures Valid() && clock >= old(clock) && Moved(old(trace), trace, old(clock), clock, least)
      ensures Really() >= least
    {
      Elapse();
      var more: real := *;
      trace := trace + [Real(clock, least + if more > 0.0 then more else 0.0)];
      Elapse();
    }

    /** A reduction: applied rounded up, or failed with the controls at the old value, the new one, or
        some at each. */
    method SetReduction(db: real) returns (a: Answer<real>)
      requires Valid() && db >= 0.0
      modifies `clock, `trace, `failed
      ensures Valid() && clock >= old(clock)
      ensures Moved(old(trace), trace, old(clock), clock, Min(old(Really()), if a.Ok? then Max(a.value, db) else db))
      ensures a.Ok? ==> Really() >= Max(a.value, db)
      ensures failed == old(failed) + if a.Ok? then 0 else 1
    {
      var landed: bool := *;
      if landed {
        var applied: real := *;
        a := *;
        if a.Ok? { a := Ok(applied); }
        Move(if a.Ok? then Max(applied, db) else db);
      } else {
        Elapse();
        a := *;
        if a.Ok? { a := Broken; }
      }
      Count(a.Ok?);
    }

    /** Every control to its minimum; a failure leaves some where they were. */
    method SetSafe() returns (a: Answer<real>)
      requires Valid()
      modifies `clock, `trace, `failed
      ensures Valid() && clock >= old(clock)
      ensures Moved(old(trace), trace, old(clock), clock, old(Really()))
      ensures a.Ok? ==> Really() >= a.value
      ensures failed == old(failed) + if a.Ok? && a.value >= 0.0 then 0 else 1
    {
      var landed: bool := *;
      if landed { Move(Really()); } else { Elapse(); }
      a := *;
      if a.Ok? && a.value > Really() { a := Broken; }
      Count(a.Ok? && a.value >= 0.0);
    }

    /** Renew the lock. TIMEDOUT is the notice that the lease had run out, KERNEL_LOCK_TIMEOUT after
        the last ping at the earliest. */
    method Ping() returns (p: PingAnswer)
      requires Valid()
      modifies `clock, `leased, `pings, `failed
      ensures Valid() && clock >= old(clock)
      ensures p.Taken? ==> old(clock) <= leased <= clock && pings == old(pings) + 1
      ensures p.TimedOut? ==> clock >= old(leased) + KERNEL_LOCK_TIMEOUT
      ensures !p.Taken? ==> leased == old(leased) && pings == old(pings)
      ensures failed == old(failed) + if p.Taken? then 0 else 1
    {
      Elapse();
      p := *;
      if p.TimedOut? && clock < leased + KERNEL_LOCK_TIMEOUT { p := Refused; }
      if p.Taken? {
        leased, pings := clock, pings + 1;
        Elapse();
      }
      Count(p.Taken?);
    }

    /** Give the card's lock up and take it again. */
    method Relinquish() returns (ok: bool)
      requires Valid()
      modifies `clock, `failed
      ensures Valid() && clock >= old(clock)
      ensures failed == old(failed) + if ok then 0 else 1
    {
      Elapse();
      ok := *;
      Count(ok);
    }

    /** The card's own safe level, once it is known. */
    method SafeLevel() returns (db: Option<real>)
      modifies `levels
      ensures levels == old(levels) + [db]
    {
      db := *;
      levels := levels + [db];
    }

    method SampleRate() returns (a: Answer<int>)
      requires Valid()
      modifies `clock, `failed
      ensures Valid() && clock >= old(clock)
      ensures failed == old(failed) + if a.Ok? && 0 <= a.value <= 0xffff_ffff then 0 else 1
    {
      Elapse();
      a := *;
      Count(a.Ok? && 0 <= a.value <= 0xffff_ffff);
    }

    /** Whether the sample rate changed since the last call. */
    method RateEvents() returns (changed: bool)
      requires Valid()
      modifies `clock
      ensures Valid() && clock >= old(clock)
    {
      Elapse();
      changed := *;
    }

    method OpenSense(rate: nat) returns (ok: bool)
      requires Valid()
      modifies `clock
      ensures Valid() && clock >= old(clock)
    {
      Elapse();
      ok := *;
    }

    method ReadPeriod(size: nat) returns (a: Answer<Reading>)
      requires Valid()
      modifies `clock, `failed, `periods
      ensures Valid() && clock >= old(clock)
      ensures a.Ok? && a.value.Whole? ==> |a.value.words| == size
      ensures failed == old(failed) + (if a.Ok? then 0 else 1) && periods == old(periods) + [a]
    {
      Elapse();
      a := *;
      if a.Ok? && a.value.Whole? && |a.value.words| != size { a := Ok(Short); }
      Count(a.Ok?);
      periods := periods + [a];
    }

    /** Frames the capture holds beyond those read. */
    method Queued() returns (a: Answer<nat>)
      requires Valid()
      modifies `clock, `positions
      ensures Valid() && clock >= old(clock) && positions == old(positions) + [a]
    {
      Elapse();
      a := *;
      positions := positions + [a];
    }

    /** Whatever the capture holds now, at most a period of whole frames. */
    method ReadTail(channels: nat, period: nat) returns (words: seq<int>)
      requires Valid() && channels > 0
      modifies `clock, `tails
      ensures Valid() && clock >= old(clock) && tails == old(tails) + [words]
      ensures |words| % channels == 0 && |words| / channels <= period
    {
      Elapse();
      words := *;
      if |words| % channels != 0 || |words| / channels > period { words := []; }
      tails := tails + [words];
    }

    // ---- files ------------------------------------------------------------------------------------

    method WriteMarker() returns (ok: bool)
      requires Valid()
      modifies `clock, `disk
      ensures Valid() && clock >= old(clock)
      ensures disk.state == old(disk.state) && disk.record == old(disk.record)
      ensures disk.marker == old(disk.marker) || disk.marker == Some(MarkerText(bootId))
      ensures ok ==> disk.marker == Some(MarkerText(bootId))
    {
      Elapse();
      ok := *;
      var landed: bool := *;
      if ok || landed { disk := disk.(marker := Some(MarkerText(bootId))); }
    }

    method RemoveRecord() returns (ok: bool)
      requires Valid()
      modifies `clock, `disk
      ensures Valid() && clock >= old(clock)
      ensures disk.state == old(disk.state) && disk.marker == old(disk.marker)
      ensures disk.record == old(disk.record) || disk.record == NoRecord
      ensures ok ==> disk.record == NoRecord
    {
      Elapse();
      ok := *;
      var landed: bool := *;
      if ok || landed { disk := disk.(record := NoRecord); }
    }

    /** What a record written now says. */
    function RecordNow(clean: bool): RecordFile
      reads `pings
    {
      Saved(Id(Word(bootId)), clean, pings, life)
    }

    method WriteRecord(clean: bool) returns (ok: bool)
      requires Valid()
      modifies `clock, `disk
      ensures Valid() && clock >= old(clock)
      ensures disk.state == old(disk.state) && disk.marker == old(disk.marker)
      ensures disk.record == old(disk.record) || disk.record == RecordNow(clean)
      ensures ok ==> disk.record == RecordNow(clean)
    {
      Elapse();
      ok := *;
      var landed: bool := *;
      if ok || landed { disk := disk.(record := RecordNow(clean)); }
    }

    method WriteState(released: bool, whole: bool) returns (ok: bool)
      requires Valid()
      modifies `clock, `disk
      ensures Valid() && clock >= old(clock)
      ensures disk.record == old(disk.record) && disk.marker == old(disk.marker)
      ensures disk.state == old(disk.state) || disk.state == Snapshot(released, whole, pings)
      ensures ok ==> disk.state == Snapshot(released, whole, pings)
    {
      Elapse();
      ok := *;
      var landed: bool := *;
      if ok || landed { disk := disk.(state := Snapshot(released, whole, pings)); }
    }

    method RemoveState() returns (ok: bool)
      requires Valid()
      modifies `clock, `disk
      ensures Valid() && clock >= old(clock)
      ensures disk.record == old(disk.record) && disk.marker == old(disk.marker)
      ensures disk.state == old(disk.state) || disk.state == NoState
      ensures ok ==> disk.state == NoState
    {
      Elapse();
      ok := *;
      var landed: bool := *;
      if ok || landed { disk := disk.(state := NoState); }
    }
  }
}
