/** The guard (src/guard.rs, `Guard`): one account of the drivers' thermal time, the history of the
    card's gain, and the lock, which is never held when safety cannot be shown. */
module Guards {
  import opened Config
  import opened Curves
  import opened Reals
  import opened Thermal
  import opened Speaker
  import opened GainLog
  import opened Cards
  import opened Codec
  import opened Options
  import Inversion
  import opened Marker
  import opened Restart
  import Bank
  import Floor
  import Threats
  import Placement
  import Budget
  import SpreadEnergy
  import Domination
  import Signals
  import Books

  const PING_INTERVAL := 0.1
  const SAVE_INTERVAL := 0.5
  const STALL_TIMEOUT := 0.5
  const BLIND_SLACK := 0.1
  const BLIND_LIMIT := 0.5
  const EVENT_SLACK := 0.005
  const REARM_PERIODS := 2
  const REARM_MARGIN_DB := 3.0
  const COPY_QUEUE_FRAMES := 16384.0
  const DEFAULT_RATE := 48000.0
  const STOP_LATENCY := 0.005
  const FLOOR_GRID_DB := 0.1
  const MAX_CONTROL_FAILURES := 600
  const DRAIN := 0.5

  /** A fatal error ends the run, which gives the card's lock up. */
  datatype Outcome = Fine | Fatal

  /** What the capture said of one period, and of its position. */
  datatype Said = Said(period: Answer<Reading>, positions: seq<Answer<nat>>)

  /** How a stream was closed: its tails, as taken and as the capture gave them, the page and the drivers after the
      last of them, and when the rest was charged up to. */
  datatype Closing = Closing(takes: seq<Books.Take>, words: seq<seq<int>>, positions: seq<Answer<nat>>, page: Books.Page,
                             mid: seq<Snap>, now: real)

  class Guard {
    const c: Curves
    const globals: Globals
    const speakers: seq<SpeakerState>
    const maxReduction: real
    const hw: Card
    const setup: Setup
    const unknownFloor: real

    var armed: bool
    var stall: Option<Option<real>>
    var dt: Option<real>
    var seenTo: Option<real>
    var rate: nat
    var accountTo: real
    var playing: bool
    var closedSeen: bool
    var unknown: bool
    var eventPending: bool
    var invalidated: bool
    var freshPeriods: nat
    var lastPing: real
    var unlockedAt: real
    var lastWrite: real
    var written: Held
    var requested: Option<real>
    var gains: seq<Gain>
    var verifiedAt: real
    var rateFailures: nat
    var minFailures: nat
    var targetFailures: nat
    var marked: bool
    var lastSaveTry: Option<real>
    var stopping: bool
    var relinquishedAt: Option<real>
    var safeMismatch: bool

    /** Everything logged or accounted lies no later than this reading of the clock. */
    ghost var known: real
    /** The log answers for the time from here on. */
    ghost var prunedTo: real
    /** The world this run started in, and all it did to the files and the lock since. */
    ghost var birth: World
    ghost var events: seq<Event>
    /** The drivers and the account as it started, and how every stretch since was booked. */
    ghost const begun: seq<Snap>
    ghost const since: real
    ghost var booked: seq<Books.Booking>

    // ---- invariants --------------------------------------------------------------------------------

    ghost predicate Fixed() {
      && Lawful(c) && ValidGlobals(globals) && Bank.Sound(speakers, c) && maxReduction > 0.0
      && forall i :: 0 <= i < |speakers| ==> speakers[i].spec.vsChan < globals.channels
    }

    lemma FixedIs()
      requires Fixed()
      ensures globals.channels > 0 && globals.period > 0 && globals.safeReduction > 0.0
      ensures forall i :: 0 <= i < |speakers| ==> ValidSpec(speakers[i].spec) && speakers[i].spec.vsChan < globals.channels
      ensures Lawful(c) && ValidGlobals(globals) && Bank.Sound(speakers, c)
    {}

    /** The gain log in order, and no time in it ahead of the clock, but for marks of up to the lease's
        length; and no time in the account or the data ahead. */
    ghost predicate LogBase()
      reads `known, `gains, `prunedTo, `verifiedAt, `accountTo, `lastPing, `seenTo, hw
    {
      && hw.Valid() && known <= hw.clock && lastPing <= hw.clock
      && Shaped(gains, KERNEL_LOCK_TIMEOUT, known) && gains != []
      && prunedTo <= verifiedAt - QUEUE_BOUND
      && prunedTo <= known - QUEUE_BOUND - GAIN_RETAIN + KERNEL_LOCK_TIMEOUT
      && verifiedAt <= accountTo <= known
      && (seenTo.Some? ==> seenTo.value <= hw.clock)
    }

    /** Its newest entry is what the controls are known to hold. */
    ghost predicate LogApart()
      reads `known, `gains, `written, `prunedTo, `verifiedAt, `accountTo, `armed, `lastPing, `unlockedAt, `seenTo, hw
    {
      && LogBase() && gains[|gains| - 1].held == written
      && (written.Held? ==> 0.0 <= written.lo <= written.hi)
      && (!armed ==> gains[|gains| - 1].kernel)
      && (armed ==> lastPing <= hw.leased)
      && unlockedAt <= hw.clock
    }

    /** And the log answers for what they really held since before anything that can still be playing. */
    ghost predicate LogOk()
      reads `known, `gains, `written, `prunedTo, `verifiedAt, `accountTo, `armed, `lastPing, `unlockedAt, `seenTo, hw
    {
      LogApart() && Covers(gains, hw.trace, prunedTo)
    }

    /** No clean stop is left that a later start could resume, and the marker is down. */
    ghost predicate Consumed()
      reads hw`disk
    {
      && (setup.state.Some? ==> !Resumable(hw.disk.state))
      && (setup.HasBoth() ==> hw.disk.marker == Some(MarkerText(hw.bootId)))
    }

    /** The lock is held only with the events, the old stop invalidated, not stopping, the last rate
        read good, the safe level as configured, and a value known to be on the controls. */
    ghost predicate LockOk()
      reads `armed, `invalidated, `stopping, `unknown, `safeMismatch, `written, `marked, `requested, `relinquishedAt, hw`disk
    {
      && (armed ==> hw.events && invalidated && !stopping && !unknown && !safeMismatch && written.Held?)
      && (invalidated ==> Consumed())
      && (marked ==> hw.disk.marker == Some(MarkerText(hw.bootId)))
      && (requested.Some? ==> written.Held? && written.lo == written.hi >= requested.value)
      && (relinquishedAt.Some? ==> stopping)
    }

    /** The world as the restarts' model has it after all this run did. */
    ghost function Lived(): World
      reads `birth, `events
    {
      Restart.Run(birth, events)
    }

    /** It says what the machine and the guard are, at this stage of an invalidation. */
    ghost predicate ToldAt(stage: Stage, done: bool)
      reads `birth, `events, `marked, `stopping, hw`disk, hw`pings
    {
      var w := Lived();
      && Seen(w.files, setup) == hw.disk && w.bootId == hw.bootId && w.pings == hw.pings && w.lives == hw.life
      && w.before == birth.before && w.life == Alive(setup, stage, marked, done, stopping)
      && forall e <- events :: !e.Reboot? && (e.Begin? ==> e.setup == setup)
    }

    ghost predicate Told()
      reads `birth, `events, `marked, `invalidated, `stopping, hw`disk, hw`pings
    {
      ToldAt(Idle, invalidated)
    }

    /** Driver `i`'s part of the bookings. */
    ghost predicate KeptBy(i: nat, xs: seq<Books.Booking>)
      requires Fixed() && |begun| == |speakers| && i < |speakers|
      reads speakers
    {
      speakers[i].Now() == Books.AllBooked(c, speakers[i].spec, globals, i, begun[i], xs)
    }

    ghost predicate AllFormed(xs: seq<Books.Booking>) {
      forall j :: 0 <= j < |xs| ==> Books.Formed(globals, xs[j])
    }

    /** Every driver is where the bookings, one after another, take it from where it began, and they reach from
        the account's start to its end; and every governor was asked since. */
    ghost predicate KeptAs(xs: seq<Books.Booking>, to: real)
      reads speakers
    {
      && Fixed() && |begun| == |speakers| && Books.Chain(xs, since, to) && AllFormed(xs)
      && Bank.AllGoverned(speakers, globals)
      && forall i :: 0 <= i < |speakers| ==> KeptBy(i, xs)
    }

    ghost predicate Kept()
      reads `booked, `accountTo, speakers
    {
      KeptAs(booked, accountTo)
    }

    /** All but what the restarts' model is told and the bookings. */
    ghost predicate Sound()
      reads `known, `gains, `written, `prunedTo, `verifiedAt, `accountTo, `armed, `lastPing, `unlockedAt, `seenTo,
            `invalidated, `stopping, `unknown, `safeMismatch, `marked, `requested, `relinquishedAt, hw, speakers
    {
      Fixed() && LogOk() && LockOk() && Bank.AllValid(speakers)
    }

    ghost predicate Valid()
      reads `known, `gains, `written, `prunedTo, `verifiedAt, `accountTo, `armed, `lastPing, `unlockedAt, `seenTo,
            `invalidated, `stopping, `unknown, `safeMismatch, `marked, `requested, `relinquishedAt, `birth, `events, `booked,
            hw, speakers
    {
      Sound() && Told() && Kept()
    }

    // ---- starting, and the files ---------------------------------------------------------------------

    /** A driver that was at `was`, charged for what two clock readings left open, if anything. */
    static ghost predicate PairedTo(c: Curves, globals: Globals, s: SpeakerState, was: Snap, pairing: real)
      reads s
    {
      && ValidSpec(s.spec)
      && var full := Inversion.FullScale(s.spec);
         s.Now() == if pairing > 0.0 then Bank.StepSnap(c, s.spec, was, full, full, pairing, globals.tAmbient) else was
    }

    /** What a start does before the guard is there; the controls' value is known only if they were set. */
    static method Prepare(c: Curves, globals: Globals, speakers: seq<SpeakerState>, hw: Card, pairing: real)
        returns (found: Held, now: real)
      requires Lawful(c) && ValidGlobals(globals) && Bank.Sound(speakers, c) && hw.Valid() && Bank.AllValid(speakers)
      modifies hw`clock, hw`trace, hw`failed, speakers
      ensures hw.Valid() && now == hw.clock && Bank.AllValid(speakers) && Bank.AllGoverned(speakers, globals)
      ensures found.Held? ==> 0.0 <= found.lo == found.hi <= hw.Really()
      ensures hw.failed == old(hw.failed) + if found.Held? then 0 else 1
      ensures forall i :: 0 <= i < |speakers| ==> PairedTo(c, globals, speakers[i], old(speakers[i].Now()), pairing)
    {
      hide Bank.StepSnap, Moved, Lawful, Inversion.FullScale, Bank.AllGoverned;
      var a := hw.SetSafe();
      found := if a.Ok? && a.value >= 0.0 then Held(a.value, a.value) else Unknown;
      Bank.GovernAll(speakers, c, globals);
      now := hw.Now();
      if pairing > 0.0 { Bank.ChargeFull(speakers, c, pairing, globals); }
    }

    /** The machine is that of a world no daemon lives in, at this setup's paths, about to start its next. */
    static ghost predicate Reached(world: World, hw: Card, setup: Setup)
      reads hw`disk, hw`pings
    {
      && world.life.Dead? && Seen(world.files, setup) == hw.disk && world.bootId == hw.bootId
      && world.pings == hw.pings && world.lives + 1 == hw.life
    }

    /** A start in a world no daemon lives in, on drivers whose models are restored: the controls to their
        minimum; after a resumed stop, the time two clock readings left open charged at full scale and full
        gain; and the old clean stop invalidated. */
    constructor (c: Curves, globals: Globals, speakers: seq<SpeakerState>, maxReduction: real, hw: Card, setup: Setup,
                 restored: bool, pairing: real, ghost world: World, ghost faults: Faults)
      requires Lawful(c) && ValidGlobals(globals) && Bank.Sound(speakers, c) && maxReduction > 0.0
      requires forall i :: 0 <= i < |speakers| ==> speakers[i].spec.vsChan < globals.channels
      requires hw.Valid() && Bank.AllValid(speakers)
      requires Reached(world, hw, setup)
      requires restored <==> StartKind(world, setup, faults) != Restart.Latched
      requires pairing > 0.0 ==> StartKind(world, setup, faults) == Resumed
      modifies hw, speakers
      ensures Valid() && !armed && this.hw == hw && this.speakers == speakers
      ensures this.setup == setup && birth == world
      ensures hw.failed == old(hw.failed) + (if written.Held? then 0 else 1) && requested.None?
      ensures unknownFloor == if restored then globals.safeReduction else 0.0
      ensures forall i :: 0 <= i < |speakers| ==> PairedTo(c, globals, speakers[i], old(speakers[i].Now()), pairing)
    {
      hide Lawful, Bank.Sound, Bank.AllValid, ValidGlobals, PairedTo, Reached, StartKind, LogOk, LockOk, ToldAt, Told, Kept, Moved,
           Covers, Shaped, Bank.AllGoverned;
      var found, now := Prepare(c, globals, speakers, hw, pairing);
      this.c, this.globals, this.speakers, this.maxReduction, this.hw := c, globals, speakers, maxReduction, hw;
      this.setup := setup;
      armed, stall, dt, seenTo, rate := false, None, None, None, 0;
      accountTo, playing, closedSeen, unknown, eventPending := now, false, false, false, false;
      invalidated, freshPeriods, lastPing, unlockedAt, lastWrite := false, 0, now, now, now;
      unknownFloor := if restored then globals.safeReduction else 0.0;
      var unknownGain := Gain(now, Unknown, true);
      written := found;
      gains := if found.Held? then [unknownGain, Gain(now, found, true)] else [unknownGain];
      requested, verifiedAt, rateFailures, minFailures, targetFailures := None, now, 0, 0, 0;
      marked, lastSaveTry, stopping, relinquishedAt, safeMismatch := false, None, false, None, false;
      known, prunedTo := now, now - QUEUE_BOUND - GAIN_RETAIN;
      birth, events := world, [Begin(setup, faults)];
      begun := seq(|speakers|, i requires 0 <= i < |speakers| reads speakers => speakers[i].Now());
      since, booked := now, [];
      new;
      StartsLogged(now);
      StartsUnlocked();
      StartsKept();
      Settle(faults);
    }

    lemma StartsLogged(now: real)
      requires hw.Valid() && !armed && seenTo.None? && accountTo == lastPing == unlockedAt == verifiedAt == known == now <= hw.clock
      requires prunedTo == now - QUEUE_BOUND - GAIN_RETAIN
      requires gains == if written.Unknown? then [Gain(now, Unknown, true)]
                        else [Gain(now, Unknown, true), Gain(now, written, true)]
      requires written.Held? ==> 0.0 <= written.lo == written.hi <= hw.Really()
      requires forall i :: 0 <= i < |hw.trace| ==> hw.trace[i].at <= now
      ensures LogOk()
    {
      StartCovers(gains, hw.trace, prunedTo, now);
      StartShaped(gains, KERNEL_LOCK_TIMEOUT, now);
      hide Shaped, Covers;
    }

    lemma StartsKept()
      requires Fixed() && Bank.AllGoverned(speakers, globals) && booked == [] && since == accountTo && |begun| == |speakers|
      requires forall i :: 0 <= i < |speakers| ==> begun[i] == speakers[i].Now()
      ensures Kept()
    {
      hide Fixed;
    }

    lemma StartsUnlocked()
      requires !armed && !invalidated && !marked && requested.None? && relinquishedAt.None?
      ensures LockOk()
    {}

    /** The first invalidation. */
    method Settle(ghost faults: Faults)
      requires Sound() && Kept() && !armed && !invalidated && !marked && !stopping && events == [Begin(setup, faults)]
      requires Reached(birth, hw, setup)
      modifies `invalidated, `marked, `lastSaveTry, `events, hw`clock, hw`disk
      ensures Valid() && !armed
    {
      hide Sound, ToldAt, Kept;
      Begun(faults);
      var done := Invalidate();
      Invalidated(done);
    }

    lemma Begun(faults: Faults)
      requires Reached(birth, hw, setup)
      requires !marked && !stopping && events == [Begin(setup, faults)]
      ensures ToldAt(Mark, false)
    {
      BeginNext(birth, setup, faults);
      RunMore(birth, [], Begin(setup, faults));
      assert [] + events == events;
    }

    method Invalidated(done: bool)
      requires Sound() && Kept() && !armed && !invalidated && ToldAt(Idle, done) && (done ==> Consumed())
      modifies `invalidated
      ensures Valid() && !armed && invalidated == done
    {
      hide LogOk, Fixed, Consumed, ToldAt, Bank.AllValid;
      invalidated := done;
    }

    /** What happened, for the restarts' model. */
    ghost method Tell(e: Event)
      requires !e.Reboot? && (e.Begin? ==> e.setup == setup)
      modifies `events
      ensures events == old(events) + [e] && Lived() == Next(old(Lived()), e)
      ensures forall x <- events :: x == e || x in old(events)
    {
      RunMore(birth, events, e);
      events := events + [e];
    }

    method InvalidateNow()
      requires Valid() && !armed && !invalidated && !stopping
      modifies `invalidated, `marked, `lastSaveTry, `events, hw`clock, hw`disk
      ensures Valid() && !armed && hw.clock >= old(hw.clock)
    {
      hide Sound, ToldAt, Kept;
      Retried();
      var done := Invalidate();
      Invalidated(done);
    }

    ghost method Retried()
      requires ToldAt(Idle, false) && !stopping
      modifies `events
      ensures ToldAt(Mark, false)
    {
      Tell(Retry);
    }

    /** The state file as a status readout, never resumed; whether the model covered up to it. */
    method WriteReadout() returns (ok: bool, ghost outcome: FileOutcome, ghost whole: bool)
      requires Sound()
      modifies hw`clock, hw`disk, `lastSaveTry
      ensures Sound() && hw.clock >= old(hw.clock) && (ok <==> outcome == Done)
      ensures hw.disk == old(hw.disk).(state := Restart.Left(outcome, old(hw.disk.state), Snapshot(false, whole, hw.pings)))
      ensures lastSaveTry.Some? && old(hw.clock) <= lastSaveTry.value <= hw.clock && (whole <==> accountTo == lastSaveTry.value)
    {
      hide Covers, Shaped, Bank.AllValid;
      var now := hw.Now();
      lastSaveTry := Some(now);
      whole := accountTo == now;
      ghost var was := hw.disk;
      ok := hw.WriteState(false, accountTo == now);
      outcome := if ok then Done else if hw.disk.state == was.state then Failed else Landed;
    }

    method SaveNow() returns (ok: bool)
      requires Valid()
      modifies hw`clock, hw`disk, `lastSaveTry, `events
      ensures Valid() && hw.clock >= old(hw.clock)
      ensures hw.disk.marker == old(hw.disk.marker) && hw.disk.record == old(hw.disk.record)
      ensures ok && setup.state.Some? ==> hw.disk.state.Snapshot? && !hw.disk.state.released
      ensures setup.state.Some? ==> lastSaveTry.Some? && lastSaveTry.value >= old(hw.clock)
    {
      hide Sound, Kept, Restart.Next, Restart.Run;
      if setup.state.None? { return true; }
      ghost var outcome, whole;
      ok, outcome, whole := WriteReadout();
      SaveNext(Lived(), outcome, whole);
      Tell(Save(outcome, whole));
    }

    method PutMarker() returns (ok: bool, ghost outcome: FileOutcome)
      requires Sound() && !invalidated
      modifies hw`clock, hw`disk, `marked
      ensures Sound() && hw.clock >= old(hw.clock) && (ok <==> outcome == Done) && marked == ok
      ensures hw.disk == old(hw.disk).(marker := Restart.Left(outcome, old(hw.disk.marker), Some(MarkerText(hw.bootId))))
    {
      hide Covers, Shaped, Fixed, Bank.AllValid;
      ghost var was := hw.disk;
      ok := hw.WriteMarker();
      marked := ok;
      outcome := if ok then Done else if hw.disk.marker == was.marker then Failed else Landed;
    }

    method TakeRecord() returns (gone: bool, ghost outcome: FileOutcome)
      requires Sound() && !invalidated
      modifies hw`clock, hw`disk
      ensures Sound() && hw.clock >= old(hw.clock) && (gone <==> outcome == Done)
      ensures hw.disk == old(hw.disk).(record := Restart.Left(outcome, old(hw.disk.record), NoRecord))
    {
      hide Covers, Shaped, Fixed, Bank.AllValid;
      ghost var was := hw.disk;
      gone := hw.RemoveRecord();
      outcome := if gone then Done else if hw.disk.record == was.record then Failed else Landed;
    }

    method TakeState() returns (gone: bool, ghost outcome: FileOutcome)
      requires Sound() && !invalidated
      modifies hw`clock, hw`disk
      ensures Sound() && hw.clock >= old(hw.clock) && (gone <==> outcome == Done)
      ensures hw.disk == old(hw.disk).(state := Restart.Left(outcome, old(hw.disk.state), NoState))
    {
      hide Covers, Shaped, Fixed, Bank.AllValid;
      ghost var was := hw.disk;
      gone := hw.RemoveState();
      outcome := if gone then Done else if hw.disk.state == was.state then Failed else Landed;
    }

    /** With a record for the next boot, the marker goes down first, and stays. */
    method MarkBoot() returns (ok: bool)
      requires Sound() && !invalidated && ToldAt(Mark, false)
      modifies hw`clock, hw`disk, `marked, `events
      ensures Sound() && hw.clock >= old(hw.clock) && ToldAt(if ok then RemoveRecord else Idle, false)
      ensures ok && setup.HasBoth() ==> marked
    {
      hide Sound, Kept, Restart.Next, Restart.Run;
      ghost var outcome := Done;
      ok := true;
      if setup.HasBoth() && !marked {
        ok, outcome := PutMarker();
      }
      MarkNext(Lived(), outcome, true);
      Tell(Event.Invalidate(outcome, true));
    }

    /** The last run's record goes, before this run can drive the speakers. */
    method DropRecord() returns (gone: bool)
      requires Sound() && !invalidated && ToldAt(RemoveRecord, false)
      modifies hw`clock, hw`disk, `events
      ensures Sound() && hw.clock >= old(hw.clock) && ToldAt(if gone then WriteStatus else Idle, false)
      ensures hw.disk.state == old(hw.disk.state) && hw.disk.marker == old(hw.disk.marker)
      ensures gone && setup.record.Some? ==> hw.disk.record == NoRecord
    {
      hide Sound, Kept, Restart.Next, Restart.Run;
      ghost var outcome := Done;
      gone := true;
      if setup.record.Some? {
        gone, outcome := TakeRecord();
      }
      RecordNext(Lived(), outcome, true);
      Tell(Event.Invalidate(outcome, true));
    }

    /** The clean stop is written over. */
    method WriteOver() returns (saved: bool)
      requires Sound() && !invalidated && ToldAt(WriteStatus, false)
      modifies hw`clock, hw`disk, `lastSaveTry, `events
      ensures Sound() && hw.clock >= old(hw.clock)
      ensures ToldAt(if !saved && setup.record.None? then RemoveState else Idle, saved)
      ensures hw.disk.marker == old(hw.disk.marker) && hw.disk.record == old(hw.disk.record)
      ensures saved && setup.state.Some? ==> hw.disk.state.Snapshot? && !hw.disk.state.released
    {
      hide Sound, Kept, Restart.Next, Restart.Run;
      ghost var outcome, whole := Done, true;
      saved := true;
      if setup.state.Some? {
        saved, outcome, whole := WriteReadout();
      }
      StatusNext(Lived(), outcome, whole);
      Tell(Event.Invalidate(outcome, whole));
    }

    /** Or, without a record, removed. */
    method DropState() returns (gone: bool)
      requires Sound() && !invalidated && ToldAt(RemoveState, false)
      modifies hw`clock, hw`disk, `events
      ensures Sound() && hw.clock >= old(hw.clock) && ToldAt(Idle, gone)
      ensures hw.disk.marker == old(hw.disk.marker) && hw.disk.record == old(hw.disk.record)
      ensures gone ==> hw.disk.state == NoState
    {
      hide Sound, Kept, Restart.Next, Restart.Run;
      ghost var outcome;
      gone, outcome := TakeState();
      StateNext(Lived(), outcome, true);
      Tell(Event.Invalidate(outcome, true));
    }

    /** True once no clean stop is left for a later start, the marker of this boot is down and the
        last run's record is gone. */
    method Invalidate() returns (done: bool)
      requires Sound() && !invalidated && ToldAt(Mark, false)
      modifies hw`clock, hw`disk, `marked, `lastSaveTry, `events
      ensures Sound() && hw.clock >= old(hw.clock) && ToldAt(Idle, done)
      ensures done ==> Consumed() && (setup.record.Some? ==> hw.disk.record == NoRecord)
    {
      hide Sound, ToldAt, Kept;
      MarkedSays();
      done := MarkBoot();
      if !done { return; }
      MarkedSays();
      done := DropRecord();
      if !done { return; }
      done := WriteOver();
      if !done && setup.record.None? {
        done := DropState();
      }
    }

    /** A guard's life is a run of the restarts' model, after whatever came before it. */
    lemma IsARun(start: World, past: seq<Event>)
      requires Told() && birth == Restart.Run(start, past)
      ensures var w := Restart.Run(start, past + events);
        Seen(w.files, setup) == hw.disk && w.pings == hw.pings && w.bootId == hw.bootId && w.before == birth.before
    {
      Restart.RunAppend(start, past, events);
    }

    /** So if it died now, what the next start under its state path would resume no run has pinged over: not
        this guard, nor any before it, if all of them had that path. */
    lemma NextResumeIsUntouched(start: World, past: seq<Event>, next: Setup, faults: Faults)
      requires Told() && birth == Restart.Run(start, past) && Initial(start)
      requires setup.state.Some? && next.state == setup.state && UnderState(past, setup.state.value)
      requires StartKind(Lived(), next, faults) == Resumed
      ensures hw.disk.state.Snapshot? && hw.disk.state.pings == hw.pings
    {
      IsARun(start, past);
      Restart.RunAppend(start, past, events);
      ResumedIsUntouched(start, past + events, setup.state.value, next, faults);
    }

    /** Nor would one that looks at its marker start from evidence once this guard, or any before it in this
        boot, has pinged, if all of them had both paths and put the marker there. */
    lemma NextEvidenceIsUnpinged(start: World, past: seq<Event>, next: Setup, faults: Faults)
      requires Told() && birth == Restart.Run(start, past) && Initial(start)
      requires next.SharesMarker(setup) && WellFormed(start.bootId) && UnderMarker(past, setup.state.value.dir)
      requires StartKind(Lived(), next, faults) == FromEvidence
      ensures hw.pings == birth.before
    {
      IsARun(start, past);
      Restart.RunAppend(start, past, events);
      EvidenceIsUnpinged(start, past + events, setup.state.value.dir, next, faults);
    }

    lemma MarkedSays()
      requires Sound()
      ensures marked ==> hw.disk.marker == Some(MarkerText(hw.bootId))
    {}

    // ---- the gain log ------------------------------------------------------------------------------

    /** The controls' value, or whether the lease is held, changed now. */
    method NoteWritten(at: real)
      requires hw.Valid() && at == hw.clock && known <= at && Least(written) >= 0.0
      requires Shaped(gains, KERNEL_LOCK_TIMEOUT, known)
      modifies `gains, `known
      ensures known == hw.clock
      ensures gains == Note(old(gains), Gain(at, written, !armed))
      ensures Shaped(gains, KERNEL_LOCK_TIMEOUT, known) && gains != []
      ensures gains[|gains| - 1].held == written && gains[|gains| - 1].kernel == !armed
      ensures forall p :: Covers(old(gains), hw.trace, p) && Least(written) <= hw.Really() ==> Covers(gains, hw.trace, p)
    {
      var g := Gain(at, written, !armed);
      NoteShaped(gains, g, KERNEL_LOCK_TIMEOUT, known);
      forall p | Covers(gains, hw.trace, p) && Least(written) <= hw.Really() ensures Covers(Note(gains, g), hw.trace, p) {
        NoteCovers(gains, hw.trace, g, p);
      }
      if gains == [] || gains[|gains| - 1].held != g.held || gains[|gains| - 1].kernel != g.kernel {
        gains := gains + [g];
      }
      known := hw.clock;
    }

    /** The value known to be on the controls, or who holds the lease, just changed. */
    ghost predicate Changed()
      reads `known, `gains, `written, `prunedTo, `verifiedAt, `accountTo, `armed, `lastPing, `unlockedAt, `seenTo,
            `invalidated, `stopping, `unknown, `safeMismatch, `marked, `requested, `relinquishedAt, `birth, `events, `booked,
            hw, speakers
    {
      && Fixed() && LogBase() && LockOk() && Told() && Kept() && Bank.AllValid(speakers)
      && Covers(gains, hw.trace, prunedTo) && hw.trace != [] && Least(written) <= hw.Really()
      && (written.Held? ==> 0.0 <= written.lo <= written.hi)
      && (armed ==> lastPing <= hw.leased) && unlockedAt <= hw.clock
    }

    /** It is noted now. */
    method NoteNow() returns (t: real)
      requires Changed()
      modifies `gains, `known, hw`clock
      ensures Valid() && t == known == hw.clock >= old(hw.clock)
      ensures gains == Note(old(gains), Gain(known, written, !armed))
    {
      hide Covers, Shaped, Note, Fixed, Consumed, Told, Kept, Bank.AllValid;
      t := hw.Now();
      NoteWritten(t);
    }

    /** The card may have held its own safe level since `from`, at most the lease's length ahead. */
    method MarkKernelSince(from: real)
      requires LogOk() && from <= hw.clock + KERNEL_LOCK_TIMEOUT
      modifies `gains, `known
      ensures LogOk() && gains == MarkKernel(old(gains), from)
    {
      hide Covers, MarkKernel, Split, Flagged, Shaped;
      ShapedLater(gains, KERNEL_LOCK_TIMEOUT, known, hw.clock);
      MarkShaped(gains, from, KERNEL_LOCK_TIMEOUT, hw.clock);
      MarkCovers(gains, hw.trace, from, prunedTo);
      gains := MarkKernel(gains, from);
      known := hw.clock;
    }

    /** A verified boundary: only what held from QUEUE_BOUND before it can still be playing. */
    method Verify(at: real)
      requires LogOk() && at <= accountTo && prunedTo <= at - QUEUE_BOUND
      modifies `verifiedAt, `gains, `prunedTo, `known
      ensures LogOk() && verifiedAt == at && known == hw.clock
      ensures gains == Prune(old(gains), at - (QUEUE_BOUND + GAIN_RETAIN))
    {
      hide Covers, Shaped, Prune;
      var from := at - (QUEUE_BOUND + GAIN_RETAIN);
      ShapedLater(gains, KERNEL_LOCK_TIMEOUT, known, hw.clock);
      ShapedIsNear(gains, KERNEL_LOCK_TIMEOUT, hw.clock);
      PruneCovers(gains, KERNEL_LOCK_TIMEOUT, hw.trace, prunedTo, from);
      PruneShaped(gains, from, KERNEL_LOCK_TIMEOUT, hw.clock);
      verifiedAt := at;
      prunedTo := Max(prunedTo, from + KERNEL_LOCK_TIMEOUT);
      gains := Prune(gains, from);
      known := hw.clock;
    }

    /** The least reduction the card may have applied to what plays since the last boundary. */
    function LeastNow(): real
      reads `gains, `written, `verifiedAt
    {
      LeastSince(gains, written, verifiedAt)
    }

    /** What is charged at is never less than full scale through what the controls really held at any
        instant from QUEUE_BOUND before the last boundary on, while that boundary is less than FAR old. */
    lemma ChargeCoversTruth(i: nat, k: nat)
      requires Valid() && hw.clock <= verifiedAt - QUEUE_BOUND + FAR
      requires i < |hw.trace| && (i + 1 < |hw.trace| ==> hw.trace[i + 1].at > verifiedAt - QUEUE_BOUND)
      requires k < |speakers|
      ensures LeastNow() <= hw.trace[i].db
      ensures WorstCase(c, speakers[k].spec, LeastNow()) >= WorstCase(c, speakers[k].spec, hw.trace[i].db)
    {
      LeastIsUnderTruth(gains, written, hw.trace, prunedTo, verifiedAt, known, i);
      WorstCaseFalls(c, speakers[k].spec, LeastNow(), hw.trace[i].db);
    }

    // ---- the account -------------------------------------------------------------------------------

    /** Driver `i` stepped from the account's end to `to`, `pre` watts before the gain. */
    twostate predicate SteppedUpTo(i: nat, watts: real, pre: real, to: real)
      requires i < |speakers| && ValidSpec(speakers[i].spec)
      reads speakers[i]
    {
      var d := to - old(accountTo);
      if d > 0.0 then Bank.SteppedTo(speakers[i], old(speakers[i].Now()), watts, pre, d, globals.tAmbient)
      else speakers[i].Now() == old(speakers[i].Now())
    }

    ghost function SnapsNow(): seq<Snap>
      reads speakers
    {
      seq(|speakers|, i requires 0 <= i < |speakers| reads speakers => speakers[i].Now())
    }

    lemma SnapsAre()
      ensures |SnapsNow()| == |speakers| && forall i :: 0 <= i < |speakers| ==> SnapsNow()[i] == speakers[i].Now()
    {}

    /** The account, the boundary, the log and the bookings. */
    ghost function Page(): Books.Page
      reads `accountTo, `verifiedAt, `gains, `booked
    {
      Books.Page(accountTo, verifiedAt, gains, booked)
    }

    /** What else a measurement looks at. */
    ghost function View(): Books.View
      reads `rate, `lastPing, `written
    {
      Books.View(rate, lastPing + KERNEL_LOCK_TIMEOUT, unknownFloor, written)
    }

    /** Where the bookings say the drivers were. */
    ghost predicate WereAt(was: seq<Snap>, xs: seq<Books.Booking>) {
      && Fixed() && |was| == |begun| == |speakers|
      && forall i :: 0 <= i < |speakers| ==> was[i] == Books.AllBooked(c, speakers[i].spec, globals, i, begun[i], xs)
    }

    lemma KeptSays()
      requires Kept()
      ensures WereAt(SnapsNow(), booked) && Books.Chain(booked, since, accountTo) && AllFormed(booked)
      ensures Fixed() && Bank.AllGoverned(speakers, globals)
    {
      hide Lawful, Books.AllBooked, Bank.AllGoverned;
      forall i | 0 <= i < |speakers| ensures SnapsNow()[i] == Books.AllBooked(c, speakers[i].spec, globals, i, begun[i], booked) {
        assert KeptBy(i, booked);
      }
    }

    lemma KeptFrom()
      requires WereAt(SnapsNow(), booked) && Books.Chain(booked, since, accountTo) && AllFormed(booked)
      requires Fixed() && Bank.AllGoverned(speakers, globals)
      ensures Kept()
    {
      hide Lawful, Books.AllBooked, Bank.AllGoverned;
      forall i | 0 <= i < |speakers| ensures KeptBy(i, booked) {
        assert SnapsNow()[i] == Books.AllBooked(c, speakers[i].spec, globals, i, begun[i], booked);
      }
    }

    /** Every driver is where a booking takes it from `was`. */
    ghost predicate TookAll(was: seq<Snap>, x: Books.Booking)
      reads speakers
    {
      && Fixed() && |was| == |speakers|
      && forall i :: 0 <= i < |speakers| ==> speakers[i].Now() == Books.Booked(c, speakers[i].spec, globals, i, was[i], x)
    }

    /** One more booking. */
    lemma StepsKept(was: seq<Snap>, x: Books.Booking, to: real)
      requires WereAt(was, booked) && Books.Chain(booked, since, accountTo) && AllFormed(booked) && TookAll(was, x)
      requires Books.Formed(globals, x) && Fixed() && Bank.AllGoverned(speakers, globals)
      requires if x.Clearing? || x.Pairing? then to == accountTo else x.from == accountTo < x.to == to
      ensures KeptAs(booked + [x], to)
    {
      hide Books.Booked, Books.Formed, Lawful, Bank.AllGoverned;
      Books.ChainOne(booked, x, since, accountTo);
      assert (booked + [x])[..|booked|] == booked;
    }

    /** The account's new end. */
    method Account(to: real, ghost x: Books.Booking)
      requires Sound() && Told() && KeptAs(booked + [x], to) && accountTo <= to <= hw.clock
      modifies `accountTo, `known, `booked
      ensures Valid() && accountTo == to && known == hw.clock && booked == old(booked) + [x]
    {
      hide Covers, Shaped, Fixed, KeptAs, Bank.AllValid;
      ShapedLater(gains, KERNEL_LOCK_TIMEOUT, known, hw.clock);
      accountTo := to;
      known := hw.clock;
      booked := booked + [x];
    }

    /** Nothing was measured from the account's end to `to`: every driver stepped over it as if the loudest
        signal there is had come through the least reduction that can still have been applied. */
    method Charge(to: real)
      requires Valid() && to <= hw.clock
      modifies `accountTo, `known, `booked, speakers
      ensures Valid() && accountTo == Max(old(accountTo), to)
      ensures forall i :: 0 <= i < |speakers| ==>
        SteppedUpTo(i, WorstCase(c, speakers[i].spec, LeastNow()), Inversion.FullScale(speakers[i].spec), to)
      ensures Page() == Books.AfterCharge(old(Page()), written, to)
    {
      hide Sound, Told, Kept, Fixed, LeastSince, WorstCase, Inversion.FullScale, Bank.SteppedTo, WereAt, TookAll, KeptAs,
           Books.Chain, ValidSpec, AllFormed, Bank.AllGoverned;
      SoundSays();
      SpecsAre();
      if to <= accountTo {
        return;
      }
      KeptSays();
      var least, from := LeastSince(gains, written, verifiedAt), accountTo;
      ghost var was := SnapsNow();
      StepLoudest(least, to - from);
      ghost var x := Books.Charging(from, to, least);
      ChargeTakes(was, x);
      StepsKept(was, x, to);
      Account(to, x);
    }

    lemma SpecsAre()
      requires Fixed()
      ensures forall i :: 0 <= i < |speakers| ==> ValidSpec(speakers[i].spec)
    {}

    /** Every driver stepped `d` seconds at full scale through `least`. */
    method StepLoudest(least: real, d: real)
      requires Sound() && d > 0.0
      modifies speakers
      ensures Sound() && Fixed() && Bank.AllGoverned(speakers, globals)
      ensures forall i :: 0 <= i < |speakers| ==>
        Bank.SteppedTo(speakers[i], old(speakers[i].Now()), WorstCase(c, speakers[i].spec, least),
                       Inversion.FullScale(speakers[i].spec), d, globals.tAmbient)
    {
      hide LogOk, LockOk, WorstCase, BeforeGain, Inversion.FullScale, Bank.SteppedTo, Bank.AllValid, Bank.AllGoverned;
      forall i | 0 <= i < |speakers|
        ensures WorstCase(c, speakers[i].spec, least) >= 0.0
        ensures BeforeGain(c, WorstCase(c, speakers[i].spec, least), least) == Inversion.FullScale(speakers[i].spec)
      {
        WorstCaseFalls(c, speakers[i].spec, least, least);
        WorstIsFull(c, speakers[i].spec, least);
      }
      var watts := seq(|speakers|, i requires 0 <= i < |speakers| => WorstCase(c, speakers[i].spec, least));
      Bank.StepAll(speakers, c, watts, d, least, globals);
      forall i | 0 <= i < |speakers|
        ensures Bank.SteppedTo(speakers[i], old(speakers[i].Now()), WorstCase(c, speakers[i].spec, least),
                               Inversion.FullScale(speakers[i].spec), d, globals.tAmbient)
      {
        assert watts[i] == WorstCase(c, speakers[i].spec, least);
      }
    }

    lemma ChargeTakes(was: seq<Snap>, x: Books.Booking)
      requires Fixed() && |was| == |speakers| && x.Charging? && x.from < x.to
      requires forall i :: 0 <= i < |speakers| ==>
        Bank.SteppedTo(speakers[i], was[i], WorstCase(c, speakers[i].spec, x.least), Inversion.FullScale(speakers[i].spec),
                       x.to - x.from, globals.tAmbient)
      ensures TookAll(was, x)
    {
      hide Bank.StepSnap, WorstCase, Inversion.FullScale, Lawful;
    }

    lemma CoolTakes(was: seq<Snap>, x: Books.Booking)
      requires Fixed() && |was| == |speakers| && x.Cooling? && x.from < x.to
      requires forall i :: 0 <= i < |speakers| ==>
        Bank.SteppedTo(speakers[i], was[i], 0.0, 0.0, x.to - x.from, globals.tAmbient)
      ensures TookAll(was, x)
    {
      hide Bank.StepSnap, Lawful;
    }

    /** Verified closed speakers up to `to`: no power. */
    method Cool(to: real)
      requires Valid() && to <= hw.clock && prunedTo <= to - QUEUE_BOUND
      modifies `accountTo, `verifiedAt, `gains, `prunedTo, `known, `booked, speakers
      ensures Valid() && accountTo == Max(old(accountTo), to) && verifiedAt == to
      ensures forall i :: 0 <= i < |speakers| ==> SteppedUpTo(i, 0.0, 0.0, to)
      ensures Page() == Books.AfterCool(old(Page()), to)
    {
      hide LogOk, LockOk, Told, Kept, Bank.SteppedTo, Bank.AllValid, Prune, WereAt, TookAll, Lawful, AllFormed, Bank.AllGoverned;
      if to > accountTo {
        KeptSays();
        SilentBefore();
        ghost var was, x := SnapsNow(), Books.Cooling(accountTo, to);
        Bank.StepAll(speakers, c, seq(|speakers|, i => 0.0), to - accountTo, 0.0, globals);
        CoolTakes(was, x);
        StepsKept(was, x, to);
        Account(to, x);
      }
      VerifyAt(to);
    }

    method VerifyAt(at: real)
      requires Valid() && at <= accountTo && prunedTo <= at - QUEUE_BOUND
      modifies `verifiedAt, `gains, `prunedTo, `known
      ensures Valid() && verifiedAt == at && gains == Prune(old(gains), at - (QUEUE_BOUND + GAIN_RETAIN))
    {
      hide LogOk, LockOk, Told, Kept, Fixed, Bank.AllValid, Prune;
      LogStays();
      Verify(at);
    }

    lemma LogStays()
      requires Valid()
      ensures LogOk() && LockOk()
    {}

    lemma PrunedIsOld()
      requires Valid()
      ensures prunedTo <= verifiedAt - QUEUE_BOUND && verifiedAt <= accountTo <= hw.clock
    {
      hide Covers, Shaped, Fixed, Consumed, Told, Kept, Bank.AllValid;
    }

    lemma SilentBefore()
      ensures BeforeGain(c, 0.0, 0.0) == 0.0
    {}

    // ---- measured frames ---------------------------------------------------------------------------

    /** The reductions the newest `k` frames up to `end`, and up to `late` of them later, may have been
        converted at. */
    function PossibleIn(log: seq<Gain>, end: real, k: nat, late: nat): seq<Inversion.Range>
      requires rate > 0
      reads `rate
    {
      Books.PossibleIn(globals, unknownFloor, rate, log, end, k, late)
    }

    /** Every driver left as the most energetic runs of its frames leave it from where it was. */
    ghost predicate RunsMeasured(was: seq<Snap>, words: seq<int>, possible: seq<Inversion.Range>, x: Bank.Credit)
      reads `rate, speakers
    {
      && Fixed() && |was| == |speakers| && rate > 0 && Bank.ValidCredit(x, |words| / globals.channels)
      && forall i :: 0 <= i < |speakers| ==>
           Bank.MeasuredFrom(speakers[i], was[i], words, possible, x, rate as real, globals)
    }

    lemma RunsTakeTime(was: seq<Snap>, words: seq<int>, possible: seq<Inversion.Range>, x: Bank.Credit)
      requires RunsMeasured(was, words, possible, x)
      ensures forall i :: 0 <= i < |speakers| ==>
        speakers[i].heated == was[i].heated + Bank.RunSecs(x.k, x.first, rate as real)
    {
      hide Bank.MeasuredFrom, Bank.RunSecs;
      forall i | 0 <= i < |speakers|
        ensures speakers[i].heated == was[i].heated + Bank.RunSecs(x.k, x.first, rate as real)
      {
        Bank.MeasuredTime(speakers[i], was[i], words, possible, x, rate as real, globals);
      }
    }

    /** Frames none of which played before the account's end but the first, and that in part. */
    method MeasureUnseen(end: real, words: seq<int>, late: nat)
      requires Valid() && rate > 0 && accountTo < end <= hw.clock && late < Books.Frames(globals, words)
      requires end - accountTo <= Books.Certain(rate, Books.Frames(globals, words), late)
      modifies `accountTo, `known, `booked, speakers
      ensures Valid() && accountTo == end && known == hw.clock
      ensures forall i :: 0 <= i < |speakers| ==> speakers[i].heated == old(speakers[i].heated) + (end - old(accountTo))
      ensures var x := Books.CreditFor(rate, old(accountTo), end, Books.Frames(globals, words), late);
        RunsMeasured(old(SnapsNow()), words, PossibleIn(gains, end, x.k, late), x)
      ensures booked == old(booked) + [Books.Measuring(old(accountTo), end, late, rate, words, gains, unknownFloor)]
    {
      hide Sound, Told, Kept, Fixed, Books.CreditFor, Books.Certain, Books.Frames, PossibleIn, RunsMeasured, WereAt, TookAll, KeptAs,
           Books.Chain, SnapsNow, AllFormed, Books.Formed, Bank.AllGoverned;
      KeptSays();
      SoundSays();
      SomeLogged();
      ghost var was := SnapsNow();
      ghost var b := Books.Measuring(accountTo, end, late, rate, words, gains, unknownFloor);
      MeasureDrivers(end, words, late);
      MeasureTakes(was, b);
      Books.MeasuringIsFormed(globals, b);
      StepsKept(was, b, end);
      Account(end, b);
    }

    lemma SomeLogged()
      requires Sound()
      ensures gains != []
    {
      hide Covers, Shaped, Fixed, Consumed, Bank.AllValid;
    }

    lemma SoundSays()
      requires Sound()
      ensures Fixed() && Bank.AllValid(speakers) && globals.channels > 0
    {
      FixedIs();
    }

    /** Every driver through its most energetic runs, for as long as the account has to go. */
    method MeasureDrivers(end: real, words: seq<int>, late: nat)
      requires Sound() && rate > 0 && accountTo < end && late < Books.Frames(globals, words)
      requires end - accountTo <= Books.Certain(rate, Books.Frames(globals, words), late)
      modifies speakers
      ensures Sound() && Fixed() && Bank.AllGoverned(speakers, globals)
      ensures forall i :: 0 <= i < |speakers| ==> speakers[i].heated == old(speakers[i].heated) + (end - accountTo)
      ensures var x := Books.CreditFor(rate, accountTo, end, Books.Frames(globals, words), late);
        RunsMeasured(old(SnapsNow()), words, PossibleIn(gains, end, x.k, late), x)
    {
      hide LogOk, LockOk, Fixed, Books.CreditFor, PossibleIn, Bank.MeasuredFrom, Bank.RunSecs, Bank.ValidCredit, Bank.AllValid,
           Bank.AllGoverned;
      FixedIs();
      Books.CreditIsExact(rate, accountTo, end, |words| / globals.channels, late);
      var x := Books.CreditFor(rate, accountTo, end, |words| / globals.channels, late);
      var possible := PossibleIn(gains, end, x.k, late);
      ghost var was := SnapsNow();
      Bank.MeasureAll(speakers, c, words, possible, x, rate as real, globals);
      assert RunsMeasured(was, words, possible, x);
      RunsTakeTime(was, words, possible, x);
    }

    lemma MeasureTakes(was: seq<Snap>, b: Books.Booking)
      requires Fixed() && b.Measuring? && b.rate == rate > 0 && b.floor == unknownFloor && b.late < Books.Frames(globals, b.words)
      requires var x := Books.CreditFor(rate, b.from, b.to, Books.Frames(globals, b.words), b.late);
        RunsMeasured(was, b.words, PossibleIn(b.log, b.to, x.k, b.late), x)
      ensures TookAll(was, b)
    {
      hide Books.CreditFor, Books.PossibleIn, Bank.MeasuredSnap, Lawful, Bank.MostRun, Bank.Heats, Bank.Befores;
    }

    /** Frames whose end is known to lie between `end` and `shift` frames later. The time before those
        that certainly played is charged (the drivers at `mid` by then); from there on each model takes the most
        energetic run of them, inverted at what the log, `marked` where the lease may have run out, allows. */
    method MeasureShifted(end: real, words: seq<int>, shift: nat) returns (ghost mid: seq<Snap>, ghost marked: seq<Gain>)
      requires Valid() && end <= hw.clock
      modifies `accountTo, `verifiedAt, `gains, `prunedTo, `known, `booked, speakers
      ensures Valid()
      ensures accountTo == if |words| >= globals.channels && rate > 0 then Max(old(accountTo), end) else old(accountTo)
      ensures forall i :: 0 <= i < |speakers| ==> speakers[i].heated == old(speakers[i].heated) + (accountTo - old(accountTo))
      ensures Page() == Books.AfterShifted(globals, View(), old(Page()), end, words, shift)
      ensures Books.Frames(globals, words) > 0 && rate > 0 && end > old(accountTo) ==>
        var late := Books.LateOf(Books.Frames(globals, words), shift);
        LedTo(old(SnapsNow()), old(Page()), end, words, late, mid, marked)
      ensures Books.Frames(globals, words) == 0 || rate == 0 || end <= old(accountTo) ==> SnapsNow() == old(SnapsNow())
    {
      hide LogOk, LockOk, Told, Kept, Fixed, Bank.AllValid, Books.AfterFrames, LedTo;
      FixedIs();
      var frames := |words| / globals.channels;
      WholeFrames(|words|, globals.channels);
      if frames == 0 || rate == 0 || end <= accountTo {
        mid, marked := SnapsNow(), gains;
        return;
      }
      mid, marked := MeasureFrames(end, words, if shift < frames - 1 then shift else frames - 1);
    }

    /** From drivers at `was` and a page `p`: they were charged up to the frames (at `mid` by then), and from there on
        measured from `words` at what the log allows, `marked` if the lease's end may lie before theirs. */
    ghost predicate LedTo(was: seq<Snap>, p: Books.Page, end: real, words: seq<int>, late: nat, mid: seq<Snap>,
                          marked: seq<Gain>)
      requires rate > 0 && late < Books.Frames(globals, words)
      reads `rate, `lastPing, `written, `gains, speakers
    {
      var frames := Books.Frames(globals, words);
      var start := end - Books.Certain(rate, frames, late);
      var x := Books.CreditFor(rate, Max(p.account, start), end, frames, late);
      && ChargedBy(mid, was, LeastSince(p.log, written, p.boundary), start - p.account)
      && marked == Books.Marked(p.log, lastPing + KERNEL_LOCK_TIMEOUT, Books.LateEnd(rate, end, late))
      && gains == Prune(marked, end - (QUEUE_BOUND + GAIN_RETAIN))
      && RunsMeasured(mid, words, PossibleIn(marked, end, x.k, late), x)
    }

    /** Where a driver that was at `was` is after `d` seconds charged as a full-scale signal through `least`. */
    ghost function ChargedSnap(i: nat, was: Snap, least: real, d: real): Snap
      requires i < |speakers| && ValidSpec(speakers[i].spec)
    {
      Books.ChargedSnap(c, speakers[i].spec, globals, was, least, d)
    }

    ghost predicate ChargedBy(now: seq<Snap>, was: seq<Snap>, least: real, d: real) {
      && Fixed() && |now| == |was| == |speakers|
      && forall i :: 0 <= i < |speakers| ==> now[i] == ChargedSnap(i, was[i], least, d)
    }

    /** What could be playing since the last boundary gave driver `k` no more than this. */
    ghost predicate CameThrough(k: nat, watts: real)
      requires k < |speakers| && ValidSpec(speakers[k].spec)
      reads `verifiedAt, hw`trace
    {
      exists i :: 0 <= i < |hw.trace|
        && (i + 1 < |hw.trace| ==> hw.trace[i + 1].at > verifiedAt - QUEUE_BOUND)
        && watts <= WorstCase(c, speakers[k].spec, hw.trace[i].db)
    }

    /** The coil of driver `k` over the `d` seconds of a charge, cut where the account's sub-steps are and as
        finely as may be in between: every piece came through what the controls really held. */
    ghost predicate ReallyPlayed(k: nat, bs: seq<SpreadEnergy.Sub>, d: real)
      requires k < |speakers| && ValidSpec(speakers[k].spec) && d > 0.0
      reads `verifiedAt, `gains, `written, hw`trace
    {
      && |bs| == SubSteps(d)
      && forall i :: 0 <= i < |bs| ==>
           && bs[i].h == d / SubSteps(d) as real && bs[i].ta == globals.tAmbient
           && bs[i].charged == WorstCase(c, speakers[k].spec, LeastNow())
           && SpreadEnergy.Pieces(bs[i].truth) && SpreadEnergy.Secs(bs[i].truth) == bs[i].h
           && forall j :: 0 <= j < |bs[i].truth| ==> CameThrough(k, bs[i].truth[j].watts)
    }

    /** Whatever was really played in the time of a charge, with nothing measured: a driver whose nodes and
        budgets were over the truth is over it after the charge, in every reachable state. */
    lemma ChargeStaysOver(k: nat, was: Snap, d: real, bs: seq<SpreadEnergy.Sub>, ps: seq<Budget.Entry>, t: Nodes,
                          past: seq<Budget.Entry>)
      requires Valid() && hw.clock <= verifiedAt - QUEUE_BOUND + FAR && k < |speakers| && d > 0.0
      requires ValidSpec(speakers[k].spec) && ReallyPlayed(k, bs, d)
      requires var full := Inversion.FullScale(speakers[k].spec);
        && Budget.Proper(ps) && Budget.Within(ps, full) && Budget.Total(ps) == d
        && Domination.Over(was, t, past, full)
      ensures Domination.Over(ChargedSnap(k, was, LeastNow(), d),
                              SpreadEnergy.Plant(c, speakers[k].spec, bs, t), past + ps,
                              Inversion.FullScale(speakers[k].spec))
    {
      var s, least := speakers[k].spec, LeastNow();
      var p, full := WorstCase(c, s, least), Inversion.FullScale(s);
      assert Lawful(c) by { ValidSays(); FixedIs(); }
      WorstCaseFull(c, s);
      WorstIsPositive(c, s, least);
      PiecesAreUnder(k, bs, d, p);
      hide Valid, WorstCase, Inversion.FullScale, Domination.Over, LeastSince, Lawful, ReallyPlayed, Bank.StepSnap;
      Domination.ChargeStaysOver(c, s, was, p, d, globals.tAmbient, bs, ps, t, past, full);
    }

    lemma PiecesAreUnder(k: nat, bs: seq<SpreadEnergy.Sub>, d: real, p: real)
      requires Valid() && hw.clock <= verifiedAt - QUEUE_BOUND + FAR && k < |speakers| && d > 0.0
      requires ValidSpec(speakers[k].spec) && ReallyPlayed(k, bs, d) && p == WorstCase(c, speakers[k].spec, LeastNow())
      ensures |bs| == SubSteps(d)
      ensures forall i :: 0 <= i < |bs| ==> Domination.Quieter(bs[i], d / SubSteps(d) as real, globals.tAmbient, p)
    {
      QuotientPositive(d, SubSteps(d) as real);
      forall i | 0 <= i < |bs|
        ensures Domination.Quieter(bs[i], d / SubSteps(d) as real, globals.tAmbient, p)
      {
        forall j | 0 <= j < |bs[i].truth| ensures bs[i].truth[j].watts <= p {
          IsUnderCharge(k, bs[i].truth[j].watts);
        }
      }
    }

    lemma IsUnderCharge(k: nat, watts: real)
      requires Valid() && hw.clock <= verifiedAt - QUEUE_BOUND + FAR && k < |speakers|
      requires ValidSpec(speakers[k].spec) && CameThrough(k, watts)
      ensures watts <= WorstCase(c, speakers[k].spec, LeastNow())
    {
      var i :| 0 <= i < |hw.trace|
        && (i + 1 < |hw.trace| ==> hw.trace[i + 1].at > verifiedAt - QUEUE_BOUND)
        && watts <= WorstCase(c, speakers[k].spec, hw.trace[i].db);
      hide Valid, WorstCase, LeastSince;
      ChargeCoversTruth(i, k);
    }

    lemma ChargingTakesTime(now: seq<Snap>, was: seq<Snap>, least: real, d: real)
      requires ChargedBy(now, was, least, d)
      ensures forall i :: 0 <= i < |speakers| ==> now[i].heated == was[i].heated + Max(d, 0.0)
    {
      hide WorstCase, Inversion.FullScale, HeatNodes, HeatPeak;
    }

    /** Up to the frames charged (the drivers at `mid` by then), from there on measured, at what the log
        says with the lease's lapse marked in it. */
    method MeasureFrames(end: real, words: seq<int>, late: nat) returns (ghost mid: seq<Snap>, ghost marked: seq<Gain>)
      requires Valid() && rate > 0 && accountTo < end <= hw.clock && late < Books.Frames(globals, words)
      modifies `accountTo, `verifiedAt, `gains, `prunedTo, `known, `booked, speakers
      ensures Valid() && accountTo == end && verifiedAt == end
      ensures forall i :: 0 <= i < |speakers| ==> speakers[i].heated == old(speakers[i].heated) + (accountTo - old(accountTo))
      ensures LedTo(old(SnapsNow()), old(Page()), end, words, late, mid, marked)
      ensures Page() == Books.AfterFrames(globals, View(), old(Page()), end, words, late)
    {
      hide Valid, MarkKernel, Split, Flagged, Prune, Books.CreditFor, ChargedBy, RunsMeasured, PossibleIn, LeastSince, SnapsNow,
           LedTo, Books.Marked, Books.AfterFrames, Books.ChargeOf;
      Books.CertainTakesTime(rate, Books.Frames(globals, words), late);
      hide Books.Certain, Books.Frames, Books.LateEnd;
      ghost var p, was := Page(), SnapsNow();
      ChargeBefore(end - Books.Certain(rate, Books.Frames(globals, words), late));
      mid := SnapsNow();
      LeaseMayHaveRunOut(Books.LateEnd(rate, end, late));
      marked := gains;
      MeasureRest(end, words, late);
      Led(was, p, end, words, late, mid, marked);
    }

    lemma Led(was: seq<Snap>, p: Books.Page, end: real, words: seq<int>, late: nat, mid: seq<Snap>, marked: seq<Gain>)
      requires rate > 0 && late < Books.Frames(globals, words)
      requires var frames := Books.Frames(globals, words);
        var start := end - Books.Certain(rate, frames, late);
        var x := Books.CreditFor(rate, Max(p.account, start), end, frames, late);
        && ChargedBy(mid, was, LeastSince(p.log, written, p.boundary), start - p.account)
        && marked == Books.Marked(p.log, lastPing + KERNEL_LOCK_TIMEOUT, Books.LateEnd(rate, end, late))
        && gains == Prune(marked, end - (QUEUE_BOUND + GAIN_RETAIN)) && accountTo == verifiedAt == end
        && RunsMeasured(mid, words, PossibleIn(marked, end, x.k, late), x)
        && booked == Books.AfterCharge(p, written, start).booked
                     + [Books.Measuring(Max(p.account, start), end, late, rate, words, marked, unknownFloor)]
      ensures LedTo(was, p, end, words, late, mid, marked)
      ensures Page() == Books.AfterFrames(globals, View(), p, end, words, late)
    {
      hide Books.Marked, LeastSince, Books.ChargeOf, Prune, ChargedBy, RunsMeasured;
    }

    /** The frames measured, and their end verified. */
    method MeasureRest(end: real, words: seq<int>, late: nat)
      requires Valid() && rate > 0 && accountTo < end <= hw.clock && late < Books.Frames(globals, words)
      requires end - accountTo <= Books.Certain(rate, Books.Frames(globals, words), late)
      modifies `accountTo, `verifiedAt, `gains, `prunedTo, `known, `booked, speakers
      ensures Valid() && accountTo == end && verifiedAt == end
      ensures forall i :: 0 <= i < |speakers| ==> speakers[i].heated == old(speakers[i].heated) + (end - old(accountTo))
      ensures gains == Prune(old(gains), end - (QUEUE_BOUND + GAIN_RETAIN))
      ensures var x := Books.CreditFor(rate, old(accountTo), end, Books.Frames(globals, words), late);
        RunsMeasured(old(SnapsNow()), words, PossibleIn(old(gains), end, x.k, late), x)
      ensures booked == old(booked) + [Books.Measuring(old(accountTo), end, late, rate, words, old(gains), unknownFloor)]
    {
      hide Valid, Prune, Books.CreditFor, RunsMeasured, PossibleIn, Books.Certain;
      MeasureUnseen(end, words, late);
      PrunedIsOld();
      VerifyAt(end);
    }

    method ChargeBefore(to: real)
      requires Valid() && to <= hw.clock
      modifies `accountTo, `known, `booked, speakers
      ensures Valid() && accountTo == Max(old(accountTo), to)
      ensures ChargedBy(SnapsNow(), old(SnapsNow()), old(LeastNow()), to - old(accountTo))
      ensures forall i :: 0 <= i < |speakers| ==> speakers[i].heated == old(speakers[i].heated) + (accountTo - old(accountTo))
      ensures Page() == Books.AfterCharge(old(Page()), written, to)
    {
      hide Valid, LeastSince, Bank.StepSnap, WorstCase, Inversion.FullScale;
      ChargeTo(to);
    }

    /** Whatever was played in the stretches booked since the first `n`, and however the frames of the measured ones
        lie in the doubt about their ends: budgets that held what was played before them hold it all, in every window
        of up to a minute. `n` can be the bookings before a pass, or none for the whole run. */
    lemma BudgetsStayOver(k: nat, n: nat, past: seq<Budget.Entry>, plays: seq<seq<Budget.Entry>>)
      requires Valid() && Fixed() && k < |speakers| && |begun| == |speakers| && n + |plays| == |booked|
      requires Domination.Holds(Books.AllBooked(c, speakers[k].spec, globals, k, begun[k], booked[..n]).history, past,
                                Inversion.FullScale(speakers[k].spec))
      requires AllFormed(booked) && forall j :: 0 <= j < |plays| ==> Books.Plays(c, speakers[k].spec, globals, booked[n + j], plays[j])
      ensures Domination.Holds(speakers[k].history, past + Signals.Flatten(plays), Inversion.FullScale(speakers[k].spec))
    {
      hide Valid, Fixed, Books.Plays, Books.Formed, Books.AllBooked, Domination.Holds, Inversion.FullScale;
      BooksOf(k);
      FixedIs();
      var s := speakers[k].spec;
      var early, later := booked[..n], booked[n..];
      assert booked == early + later;
      Books.BookedRuns(c, s, globals, k, begun[k], early, later);
      Books.RunStaysOver(c, s, globals, k, Books.AllBooked(c, s, globals, k, begun[k], early), later, past, plays);
    }

    lemma BooksOf(k: nat)
      requires Valid() && k < |speakers| && |begun| == |speakers|
      ensures Fixed() && KeptBy(k, booked)
    {
      hide LogOk, LockOk, Told, Lawful, AllFormed, Bank.AllValid, Bank.AllGoverned;
    }

    lemma WholeFrames(n: nat, channels: nat)
      requires channels > 0
      ensures n / channels > 0 <==> n >= channels
    {}

    /** Every driver charged from the account's end at `from`, where it was at `was`, to the account's end
        now, as a full-scale signal through `least`. */
    ghost predicate Charged(was: seq<Snap>, from: real, least: real)
      reads `accountTo, speakers
    {
      ChargedBy(SnapsNow(), was, least, accountTo - from)
    }

    /** The same, and what it means for the drivers' time. */
    method ChargeTo(to: real)
      requires Valid() && to <= hw.clock
      modifies `accountTo, `known, `booked, speakers
      ensures Valid() && accountTo == Max(old(accountTo), to)
      ensures Charged(old(SnapsNow()), old(accountTo), old(LeastNow()))
      ensures forall i :: 0 <= i < |speakers| ==> speakers[i].heated == old(speakers[i].heated) + (accountTo - old(accountTo))
      ensures Page() == Books.AfterCharge(old(Page()), written, to)
    {
      hide LogOk, LockOk, Told, Kept, Bank.AllValid, LeastSince, Bank.StepSnap, WorstCase, Inversion.FullScale;
      SnapsAre();
      Charge(to);
      assert Fixed();
      assert Charged(old(SnapsNow()), old(accountTo), old(LeastNow())) by {
        forall i | 0 <= i < |speakers|
          ensures speakers[i].Now() == ChargedSnap(i, old(speakers[i].Now()), LeastNow(), accountTo - old(accountTo))
        {
          assert SteppedUpTo(i, WorstCase(c, speakers[i].spec, LeastNow()), Inversion.FullScale(speakers[i].spec), to);
        }
      }
      ChargingTakesTime(SnapsNow(), old(SnapsNow()), old(LeastNow()), accountTo - old(accountTo));
      SnapsAre();
    }

    /** Frames that can have played after the lease's end are allowed the card's own level in the log. With
        the last frame's end in doubt that end can be ahead of the clock. */
    method LeaseMayHaveRunOut(lateEnd: real)
      requires Valid()
      modifies `gains, `known
      ensures Valid()
      ensures gains == Books.Marked(old(gains), lastPing + KERNEL_LOCK_TIMEOUT, lateEnd)
    {
      hide LogOk, MarkKernel, Split, Flagged, Fixed, Consumed, Told, Kept, Bank.AllValid;
      if lateEnd > lastPing + KERNEL_LOCK_TIMEOUT {
        MarkLapse();
      }
    }

    // ---- the lock -----------------------------------------------------------------------------------

    /** A reading of the clock; any time may have passed. */
    method Clock() returns (t: real)
      requires Valid()
      modifies hw`clock
      ensures Valid() && t == hw.clock >= old(hw.clock)
    {
      hide Covers, Shaped, Fixed, Consumed, Told, Kept, Bank.AllValid;
      t := hw.Now();
    }

    /** The card's lock given up. */
    method LetGo() returns (r: Outcome)
      requires Valid()
      modifies hw`clock, hw`failed
      ensures Valid() && hw.clock >= old(hw.clock)
      ensures hw.failed == old(hw.failed) + if r.Fatal? then 1 else 0
    {
      hide Covers, Shaped, Fixed, Consumed, Told, Kept, Bank.AllValid;
      var ok := hw.Relinquish();
      r := if ok then Fine else Fatal;
    }

    /** How long the next sense period is overdue; zero while none is due. */
    function Overdue(now: real): real
      reads `dt, `seenTo
    {
      if dt.Some? && seenTo.Some? then Max(now - (seenTo.value + dt.value), 0.0) else 0.0
    }

    /** The model is current enough at `now` to lift or renew the lock. */
    predicate FreshEnough(now: real)
      reads `accountTo, `dt, `seenTo, `playing
    {
      && now - accountTo <= (if dt.Some? then dt.value else 0.0) + BLIND_SLACK
      && !(playing && Overdue(now) > BLIND_LIMIT)
    }

    /** Give the card's lock up. A failure is fatal: the run ends, which gives it up too. */
    method HandOff() returns (r: Outcome)
      requires Valid()
      modifies `armed, `gains, `known, hw`clock, hw`failed
      ensures Valid() && !armed && hw.clock >= old(hw.clock)
      ensures hw.failed == old(hw.failed) + if r.Fatal? then 1 else 0
      ensures gains == Note(old(gains), Gain(known, written, true))
           || gains == Note(MarkKernel(old(gains), lastPing + KERNEL_LOCK_TIMEOUT), Gain(known, written, true))
      ensures old(hw.clock) > lastPing + KERNEL_LOCK_TIMEOUT ==>
        gains == Note(MarkKernel(old(gains), lastPing + KERNEL_LOCK_TIMEOUT), Gain(known, written, true))
    {
      hide Valid, Note, MarkKernel, Split, Flagged;
      var now := Clock();
      LeaseMayHaveRunOut(now);
      GiveUp();
      r := LetGo();
    }

    /** The guard's own side of giving the lock up. */
    method GiveUp()
      requires Valid()
      modifies `armed, `gains, `known, hw`clock
      ensures Valid() && !armed && hw.clock >= old(hw.clock) && gains == Note(old(gains), Gain(known, written, true))
    {
      WrittenIsUnder();
      hide LogBase, Covers, Shaped, Note, Fixed, Consumed, Told, Kept, Bank.AllValid;
      armed := false;
      var t := NoteNow();
    }

    lemma CoversReally()
      requires hw.trace != [] && Covers(gains, hw.trace, prunedTo) && gains[|gains| - 1].held == written
      ensures Least(written) <= hw.Really()
    {}

    lemma WrittenIsUnder()
      requires Valid()
      ensures hw.trace != [] && Least(written) <= hw.Really()
    {
      hide Covers, Shaped, Fixed, Consumed, Told, Kept, Bank.AllValid;
      CoversReally();
    }

    method Disarm() returns (r: Outcome)
      requires Valid()
      modifies `armed, `gains, `known, hw`clock, hw`failed
      ensures Valid() && !armed && hw.clock >= old(hw.clock) && (r.Fatal? ==> old(armed))
      ensures hw.failed == old(hw.failed) + if r.Fatal? then 1 else 0
      ensures !old(armed) ==> gains == old(gains)
      ensures old(armed) && old(hw.clock) > lastPing + KERNEL_LOCK_TIMEOUT ==>
        gains == Note(MarkKernel(old(gains), lastPing + KERNEL_LOCK_TIMEOUT), Gain(known, written, true))
    {
      hide Valid, Note, MarkKernel, Split, Flagged;
      r := Fine;
      if armed {
        r := HandOff();
      }
    }

    /** One ping. The lease starts when the card takes it, any time inside the call: from before it,
        the lapse it bounds is the earliest. */
    method PingOnce() returns (p: PingAnswer)
      requires Valid() && invalidated && !stopping
      modifies `lastPing, `events, hw`clock, hw`leased, hw`pings, hw`failed
      ensures Valid() && hw.clock >= old(hw.clock)
      ensures hw.failed == old(hw.failed) + (if p.Taken? then 0 else 1) && (!p.Taken? ==> lastPing == old(lastPing))
      ensures p.Taken? ==> old(hw.clock) <= lastPing <= hw.leased <= hw.clock
      ensures if p.Taken? then hw.pings == old(hw.pings) + 1 else hw.pings == old(hw.pings) && hw.leased == old(hw.leased)
      ensures p.TimedOut? ==> lastPing == old(lastPing) && (armed ==> lastPing + KERNEL_LOCK_TIMEOUT <= hw.clock)
    {
      hide Sound, Kept, Restart.Next, Restart.Run;
      p := PingCard();
      if p.Taken? {
        PingNext(Lived());
        Tell(Event.Ping);
      }
    }

    method PingCard() returns (p: PingAnswer)
      requires Sound()
      modifies `lastPing, hw`clock, hw`leased, hw`pings, hw`failed
      ensures Sound() && hw.clock >= old(hw.clock)
      ensures hw.failed == old(hw.failed) + (if p.Taken? then 0 else 1) && (!p.Taken? ==> lastPing == old(lastPing))
      ensures p.Taken? ==> old(hw.clock) <= lastPing <= hw.leased <= hw.clock
      ensures if p.Taken? then hw.pings == old(hw.pings) + 1 else hw.pings == old(hw.pings) && hw.leased == old(hw.leased)
      ensures p.TimedOut? ==> lastPing == old(lastPing) && (armed ==> lastPing + KERNEL_LOCK_TIMEOUT <= hw.clock)
    {
      hide Covers, Shaped, Fixed, Consumed, Bank.AllValid;
      var before := hw.Now();
      p := hw.Ping();
      if p.Taken? {
        lastPing := before;
      }
    }

    /** Ping the lock; the notice that it had lapsed is answered with one more ping. Only entered on a
        fresh model. */
    method PingLock() returns (r: Outcome)
      requires Valid() && FreshEnough(hw.clock) && invalidated && !stopping
      modifies `lastPing, `gains, `known, `events, hw`clock, hw`leased, hw`pings, hw`failed
      ensures hw.failed >= old(hw.failed) && (r.Fatal? ==> hw.failed > old(hw.failed))
      ensures Valid() && hw.clock >= old(hw.clock) && (r.Fine? ==> old(hw.clock) <= lastPing <= hw.leased <= hw.clock)
      ensures hw.pings >= old(hw.pings)
      ensures hw.pings == old(hw.pings) ==> hw.leased == old(hw.leased) && lastPing == old(lastPing)
      ensures r.Fine? ==> hw.pings > old(hw.pings)
      ensures gains == old(gains) || gains == MarkKernel(old(gains), old(lastPing) + KERNEL_LOCK_TIMEOUT)
    {
      hide Valid, MarkKernel, Split, Flagged, FreshEnough;
      var p := PingOnce();
      if p.TimedOut? { p := PingAgain(); }
      r := if p.Taken? then Fine else Fatal;
    }

    /** The lapse marked, and one more ping. */
    method PingAgain() returns (p: PingAnswer)
      requires Valid() && invalidated && !stopping
      modifies `lastPing, `gains, `known, `events, hw`clock, hw`leased, hw`pings, hw`failed
      ensures Valid() && hw.clock >= old(hw.clock)
      ensures hw.failed == old(hw.failed) + (if p.Taken? then 0 else 1) && (!p.Taken? ==> lastPing == old(lastPing))
      ensures p.Taken? ==> old(hw.clock) <= lastPing <= hw.leased <= hw.clock
      ensures if p.Taken? then hw.pings == old(hw.pings) + 1 else hw.pings == old(hw.pings) && hw.leased == old(hw.leased)
      ensures gains == MarkKernel(old(gains), old(lastPing) + KERNEL_LOCK_TIMEOUT)
    {
      hide Valid, MarkKernel, Split, Flagged;
      MarkLapse();
      p := PingOnce();
    }

    /** The card held its safe level from the lapse on, not before the lease's length after the last ping. */
    method MarkLapse()
      requires Valid()
      modifies `gains, `known
      ensures Valid() && gains == MarkKernel(old(gains), lastPing + KERNEL_LOCK_TIMEOUT)
    {
      hide LogOk, LockOk, Told, Kept, Fixed, Bank.AllValid, MarkKernel, Split, Flagged;
      LapseIsNear();
      MarkKernelSince(lastPing + KERNEL_LOCK_TIMEOUT);
    }

    lemma LapseIsNear()
      requires Valid()
      ensures LogOk() && lastPing <= hw.clock
    {
      hide Covers, Shaped, Fixed, Consumed, Told, Kept, Bank.AllValid;
    }

    /** It is known, and lets more through than it was configured to. */
    predicate Louder(level: Option<real>) {
      level.Some? && level.value < globals.safeReduction - 0.000001
    }

    method Level() returns (said: Option<real>)
      requires Valid()
      modifies hw`levels
      ensures Valid() && hw.levels == old(hw.levels) + [said]
    {
      hide Covers, Shaped, Fixed, Consumed, Told, Kept, Bank.AllValid;
      said := hw.SafeLevel();
    }

    /** The card's own safe level, once known, is no louder than the configured one. */
    method CardSafeOk() returns (ok: bool, ghost level: Option<real>)
      requires Valid() && !armed
      modifies `safeMismatch, hw`levels
      ensures Valid() && ok == !safeMismatch && hw.levels == old(hw.levels) + [level]
      ensures safeMismatch <==> old(safeMismatch) || Louder(level)
    {
      hide LogOk, Told, Kept, Fixed, Consumed, Bank.AllValid;
      var said := Level();
      level := said;
      if said.Some? && said.value < globals.safeReduction - 0.000001 {
        safeMismatch := true;
      }
      ok := !safeMismatch;
    }

    // ---- what is written ----------------------------------------------------------------------------

    function TimingRate(): real
      reads `rate
    {
      if rate > 0 then rate as real else DEFAULT_RATE
    }

    /** The lease, a period to have looked and the stop, behind a copy queue of what was converted before. */
    function HoldSecs(): real
      reads `rate
    {
      COPY_QUEUE_FRAMES / TimingRate() + KERNEL_LOCK_TIMEOUT + globals.period as real / TimingRate() + STOP_LATENCY
    }

    /** Audio converted at a reduction written at `write` still plays at `ended` at the latest: if the lease ran out at
        most its length after the write, the card was looked at within a period of that and stopped, and what had been
        queued for conversion before played first. The floor holds all that long. */
    lemma HoldCovers(write: real, lapsed: real, looked: real, stopped: real, ended: real)
      requires lapsed <= write + KERNEL_LOCK_TIMEOUT && looked <= lapsed + globals.period as real / TimingRate()
      requires stopped <= looked + STOP_LATENCY && ended <= stopped + COPY_QUEUE_FRAMES / TimingRate()
      ensures ended - write <= HoldSecs()
    {}

    function Grid(): real {
      if hw.step > 0.0 then hw.step else FLOOR_GRID_DB
    }

    /** Full scale at `db` for as long as the guard may be held up keeps driver `i` the margin under its
        limit. */
    predicate HoldsAt(i: nat, db: real)
      requires i < |speakers| && ValidSpec(speakers[i].spec)
      reads `rate, speakers[i]
    {
      Floor.Under(c, Floor.Driver(speakers[i].spec, speakers[i].nodes), db, HoldSecs(), globals.tAmbient)
    }

    ghost predicate AllHold(db: real)
      requires Fixed()
      reads `rate, speakers
    {
      forall i :: 0 <= i < |speakers| ==> HoldsAt(i, db)
    }

    /** `db` keeps every driver so, but for the grid's slack, if anything does. */
    ghost predicate FloorHolds(db: real)
      requires Fixed()
      reads `rate, speakers
    {
      AllHold(MUTE_DB) ==> AllHold(db + Floor.GRID_SLACK * Grid())
    }

    method Drivers() returns (ds: seq<Floor.Driver>)
      ensures |ds| == |speakers| && forall i :: 0 <= i < |ds| ==> ds[i] == Floor.Driver(speakers[i].spec, speakers[i].nodes)
    {
      ds := [];
      for i := 0 to |speakers|
        invariant |ds| == i && forall k :: 0 <= k < i ==> ds[k] == Floor.Driver(speakers[k].spec, speakers[k].nodes)
      {
        ds := ds + [Floor.Driver(speakers[i].spec, speakers[i].nodes)];
      }
    }

    /** At least the governor's reduction and the floor, and no more than either needs. */
    ghost predicate IsTarget(db: real, reduction: real)
      requires Fixed()
      reads `rate, speakers
    {
      && db >= reduction && FloorHolds(db)
      && (db == reduction || forall low :: 0.0 <= low <= db - Grid() - Floor.RESOLUTION ==> !AllHold(low))
    }

    /** The reduction to write for the governor's: never under the floor. */
    method TargetDb(reduction: real) returns (db: real)
      requires Fixed() && hw.step >= 0.0
      ensures IsTarget(db, reduction)
    {
      hide Floor.Under, Bank.Sound;
      FixedIs();
      var ds := Drivers();
      var floor := Floor.FloorDb(c, ds, HoldSecs(), globals.tAmbient, Grid());
      db := Max(reduction, floor);
      FloorIsKept(ds, floor, db);
      forall low | 0.0 <= low <= floor - Grid() - Floor.RESOLUTION ensures !AllHold(low) {
        HoldIsUnder(ds, low);
      }
    }

    lemma HoldIsUnder(ds: seq<Floor.Driver>, db: real)
      requires Fixed() && Floor.ValidDrivers(ds)
      requires |ds| == |speakers| && forall i :: 0 <= i < |ds| ==> ds[i] == Floor.Driver(speakers[i].spec, speakers[i].nodes)
      ensures AllHold(db) <==> Floor.AllUnder(c, ds, db, HoldSecs(), globals.tAmbient)
    {
      hide Floor.Under;
      assert forall k :: 0 <= k < |ds| ==> HoldsAt(k, db) == Floor.Under(c, ds[k], db, HoldSecs(), globals.tAmbient);
    }

    lemma FloorIsKept(ds: seq<Floor.Driver>, floor: real, db: real)
      requires Fixed() && hw.step >= 0.0 && floor <= db
      requires |ds| == |speakers| && forall i :: 0 <= i < |ds| ==> ds[i] == Floor.Driver(speakers[i].spec, speakers[i].nodes)
      requires Floor.ValidDrivers(ds)
      requires Floor.AllUnder(c, ds, MUTE_DB, HoldSecs(), globals.tAmbient)
           ==> Floor.AllUnder(c, ds, floor + Max(Floor.GRID_SLACK * Grid(), 0.0), HoldSecs(), globals.tAmbient)
      ensures FloorHolds(db)
    {
      hide Floor.Under;
      var up, slack := db + Floor.GRID_SLACK * Grid(), Max(Floor.GRID_SLACK * Grid(), 0.0);
      HoldIsUnder(ds, MUTE_DB);
      HoldIsUnder(ds, up);
      if AllHold(MUTE_DB) {
        forall i | 0 <= i < |ds| ensures Floor.Under(c, ds[i], up, HoldSecs(), globals.tAmbient) {
          Floor.UnderStays(c, ds[i], floor + slack, up, HoldSecs(), globals.tAmbient);
        }
      }
    }

    // ---- taking the lock -----------------------------------------------------------------------------

    /** Every control to the minimum before an unlock, which lets nothing through louder than the card's
        own safe level. */
    method Mute() returns (done: bool, r: Outcome)
      requires Valid() && !armed
      modifies `written, `requested, `gains, `known, `minFailures, hw`clock, hw`trace, hw`failed
      ensures r.Fine? ==> Valid() && hw.clock >= old(hw.clock)
      ensures hw.failed == old(hw.failed) + if r.Fine? && done then 0 else 1
      ensures r.Fine? && done ==> written.Held? && written.lo == written.hi && requested.None? && known == hw.clock
      ensures r.Fine? && !done ==> written == old(written) && gains == old(gains)
      ensures r.Fine? ==> minFailures == (if done then 0 else old(minFailures) + 1) <= MAX_CONTROL_FAILURES
      ensures r.Fine? && done ==> gains == Note(old(gains), Gain(known, written, true))
    {
      hide Covers, Shaped, Note, Fixed, Consumed, Told, Kept, Bank.AllValid;
      CoversReally();
      var a := hw.SetSafe();
      ControlsMovedTo(old(hw.trace));
      if a.Ok? && a.value >= 0.0 {
        Muted(a.value);
        minFailures := 0;
        return true, Fine;
      } else if a.Transient? && minFailures < MAX_CONTROL_FAILURES {
        minFailures := minFailures + 1;
        return false, Fine;
      }
      return false, Fatal;
    }

    method Muted(value: real)
      requires Valid() && !armed && hw.trace != [] && hw.Really() >= value >= 0.0
      modifies `written, `requested, `gains, `known, hw`clock
      ensures Valid() && hw.clock >= old(hw.clock)
      ensures written == Held(value, value) && requested.None? && known == hw.clock
      ensures gains == Note(old(gains), Gain(known, written, true))
    {
      hide Valid, Changed, Note;
      Put(value, None);
      var t := NoteNow();
    }

    /** The controls moved inside a call, no lower than the log's newest value: it still covers them. */
    lemma ControlsMovedTo(was: seq<Real>)
      requires was != [] && Covers(gains, was, prunedTo) && was <= hw.trace
      requires forall i :: |was| <= i < |hw.trace| ==> hw.trace[i].db >= Least(gains[|gains| - 1].held)
      ensures Covers(gains, hw.trace, prunedTo)
    {
      var moves := hw.trace[|was|..];
      ControlsMoved(gains, was, moves, prunedTo);
      assert was + moves == hw.trace;
    }

    /** The controls at their minimum, a ping on a fresh model, the card's own level checked, and the model
        found fresh again after the ping: only then is the lock held. */
    method Unlock() returns (r: Outcome, ghost checkedAt: real)
      requires Valid() && !armed && !stopping && !unknown && !safeMismatch && hw.events && invalidated
      modifies `armed, `written, `requested, `gains, `known, `minFailures, `lastPing, `safeMismatch, `unlockedAt, `events
      modifies hw`clock, hw`trace, hw`leased, hw`pings, hw`failed, hw`levels
      ensures r.Fine? ==> Valid() && hw.clock >= old(hw.clock) && hw.pings >= old(hw.pings)
      ensures r.Fine? && armed ==> requested.None? && written.Held? && written.lo == written.hi
      ensures r.Fine? && armed ==> |hw.levels| > |old(hw.levels)| && !Louder(hw.levels[|hw.levels| - 1])
      ensures r.Fine? && armed ==> hw.pings > old(hw.pings) && hw.leased <= checkedAt <= hw.clock && FreshEnough(checkedAt)
      ensures hw.failed >= old(hw.failed) && (r.Fatal? ==> hw.failed > old(hw.failed))
      ensures r.Fine? && !armed ==> hw.failed > old(hw.failed) || safeMismatch || !FreshEnough(hw.clock)
      ensures hw.pings == old(hw.pings) ==> lastPing == old(lastPing)
    {
      hide Valid;
      checkedAt := hw.clock;
      var done;
      done, r := Mute();
      if r.Fatal? || !done { return; }
      var now := Clock();
      if !FreshEnough(now) { return; }
      r := PingLock();
      if r.Fatal? { return; }
      var ok;
      ghost var level;
      ok, level := CardSafeOk();
      if ok {
        now := Clock();
        checkedAt := now;
        if FreshEnough(now) {
          Arm();
          return;
        }
      }
      // the safe level does not match the configuration, or the ping itself blocked
      r := LetGo();
    }

    method Arm()
      requires Valid() && !armed && !stopping && !unknown && !safeMismatch && hw.events && invalidated
      requires written.Held? && lastPing <= hw.leased
      modifies `armed, `gains, `known, `unlockedAt, hw`clock
      ensures Valid() && armed && hw.clock >= old(hw.clock)
      ensures unlockedAt == known && gains == Note(old(gains), Gain(known, written, false))
    {
      hide Valid, Changed, Note;
      HoldLease();
      NoteUnlock();
    }

    method HoldLease()
      requires Valid() && !armed && !stopping && !unknown && !safeMismatch && hw.events && invalidated
      requires written.Held? && lastPing <= hw.leased
      modifies `armed
      ensures Changed() && armed
    {
      WrittenIsUnder();
      hide LogBase, Covers, Shaped, Fixed, Consumed, Told, Kept, Bank.AllValid;
      armed := true;
    }

    /** The lock is held from now on. */
    method NoteUnlock()
      requires Changed() && armed
      modifies `gains, `known, `unlockedAt, hw`clock
      ensures Valid() && armed && hw.clock >= old(hw.clock)
      ensures unlockedAt == known && gains == Note(old(gains), Gain(known, written, false))
    {
      hide LogBase, Covers, Shaped, Note, Fixed, Consumed, Told, Kept, Bank.AllValid;
      unlockedAt := NoteNow();
    }

    // ---- writing and renewing ------------------------------------------------------------------------

    /** The controls took some values inside a call, none under what is now noted, from `at` on. */
    method NoteFrom(at: real, ghost was: seq<Real>)
      requires hw.Valid() && known <= at <= hw.clock && armed && Least(written) >= 0.0
      requires Shaped(gains, KERNEL_LOCK_TIMEOUT, known)
      requires was != [] && was <= hw.trace && Covers(gains, was, prunedTo) && forall i :: 0 <= i < |was| ==> was[i].at <= at
      requires Least(written) <= Least(gains[|gains| - 1].held)
      requires forall i :: |was| <= i < |hw.trace| ==> hw.trace[i].db >= Least(written)
      modifies `gains, `known
      ensures known == hw.clock && gains == Note(old(gains), Gain(at, written, false))
      ensures Shaped(gains, KERNEL_LOCK_TIMEOUT, known) && gains != [] && gains[|gains| - 1].held == written
      ensures Covers(gains, hw.trace, prunedTo)
    {
      hide Covers;
      var g := Gain(at, written, false);
      NoteShaped(gains, g, KERNEL_LOCK_TIMEOUT, known);
      ShapedLater(Note(gains, g), KERNEL_LOCK_TIMEOUT, at, hw.clock);
      WriteNoted(gains, was, hw.trace[|was|..], g, prunedTo);
      assert was + hw.trace[|was|..] == hw.trace;
      gains := Note(gains, g);
      known := hw.clock;
    }

    /** Write `target`. Either value may convert a frame from before the call on; a failure may have left
        some controls at each. */
    method Write(target: real) returns (a: Answer<real>, ghost before: real)
      requires Valid() && armed && target >= 0.0
      modifies `written, `requested, `gains, `known, `lastWrite, hw`clock, hw`trace, hw`failed
      ensures hw.failed == old(hw.failed) + if a.Ok? then 0 else 1
      ensures !a.Broken? ==> Valid() && hw.clock >= old(hw.clock)
      ensures a.Ok? ==> written == Held(Max(a.value, target), Max(a.value, target)) && requested == Some(target)
      ensures a.Ok? ==> old(hw.clock) <= before <= known && lastWrite >= old(hw.clock)
      ensures a.Ok? ==> gains == WriteLog(old(gains), old(written), Max(a.value, target), before, known)
      ensures a.Transient? ==> gains == Note(old(gains), Gain(known, written, false))
      ensures a.Transient? ==> requested.None? && written.Held? && written.lo <= target && written.lo <= old(written.lo)
    {
      hide Covers, Shaped, Note, Fixed, Consumed, Told, Kept, Bank.AllValid;
      CoversReally();
      var start := hw.Now();
      before := start;
      ghost var was := hw.trace;
      a := hw.SetReduction(target);
      match a {
        case Broken =>
        case Transient => Missed(was, target);
        case Ok(applied) => Took(start, was, Max(applied, target), target);
      }
    }

    /** Some controls may hold the new value and some the old, and anything between may convert a frame. */
    method Missed(ghost was: seq<Real>, target: real)
      requires Fixed() && LogApart() && LockOk() && Told() && Kept() && Bank.AllValid(speakers) && armed && target >= 0.0
      requires was != [] && was <= hw.trace && Covers(gains, was, prunedTo)
      requires forall i :: |was| <= i < |hw.trace| ==> hw.trace[i].db >= Min(written.lo, target)
      modifies `written, `requested, `gains, `known, hw`clock
      ensures Valid() && hw.clock >= old(hw.clock) && requested.None?
      ensures written == Held(Min(old(written.lo), target), Max(old(written.hi), target + hw.step))
      ensures gains == Note(old(gains), Gain(known, written, false))
    {
      hide Covers, Shaped, Note, Fixed, Consumed, Told, Kept, Bank.AllValid;
      requested := None;
      written := Held(Min(written.lo, target), Max(written.hi, target + hw.step));
      var now := hw.Now();
      NoteFrom(now, was);
    }

    /** The controls took `value`: from before the call on either value may have converted a frame. */
    method Took(before: real, ghost was: seq<Real>, value: real, target: real)
      requires Fixed() && LogApart() && LockOk() && Told() && Kept() && Bank.AllValid(speakers) && armed && 0.0 <= target <= value
      requires known <= before <= hw.clock && hw.Really() >= value
      requires was != [] && was <= hw.trace && Covers(gains, was, prunedTo) && forall i :: 0 <= i < |was| ==> was[i].at <= before
      requires forall i :: |was| <= i < |hw.trace| ==> hw.trace[i].db >= Min(written.lo, value)
      modifies `written, `requested, `gains, `known, `lastWrite, hw`clock
      ensures Valid() && hw.clock >= old(hw.clock)
      ensures written == Held(value, value) && requested == Some(target)
      ensures before <= known == lastWrite && gains == WriteLog(old(gains), old(written), value, before, known)
    {
      hide Covers, Shaped, Note, Fixed, Consumed, Told, Kept, Bank.AllValid;
      requested := None;
      Either(before, was, value);
      Settled(value, target);
    }

    method Settled(value: real, target: real)
      requires Valid() && armed && hw.trace != [] && hw.Really() >= value >= target >= 0.0
      modifies `written, `requested, `gains, `known, `lastWrite, hw`clock
      ensures Valid() && hw.clock >= old(hw.clock)
      ensures written == Held(value, value) && requested == Some(target)
      ensures known == hw.clock == lastWrite && gains == Note(old(gains), Gain(known, written, false))
    {
      hide Valid, Changed, Note;
      Put(value, Some(target));
      lastWrite := NoteNow();
    }

    /** The controls are known to hold `value`, for what was asked of them, if anything. */
    method Put(value: real, target: Option<real>)
      requires Valid() && hw.trace != [] && hw.Really() >= value >= 0.0 && (target.Some? ==> value >= target.value)
      modifies `written, `requested
      ensures Changed() && written == Held(value, value) && requested == target
    {
      hide LogBase, Covers, Shaped, Fixed, Consumed, Told, Kept, Bank.AllValid;
      written := Held(value, value);
      requested := target;
    }

    /** The old value and the new, from before the call on. */
    method Either(before: real, ghost was: seq<Real>, value: real)
      requires LogApart() && armed && written.Held? && value >= 0.0
      requires known <= before <= hw.clock && hw.Really() >= value
      requires was != [] && was <= hw.trace && Covers(gains, was, prunedTo) && forall i :: 0 <= i < |was| ==> was[i].at <= before
      requires forall i :: |was| <= i < |hw.trace| ==> hw.trace[i].db >= Min(written.lo, value)
      modifies `written, `gains, `known
      ensures LogOk() && hw.clock == old(hw.clock) && written.Held?
      ensures gains == if old(written) == Held(value, value) then old(gains)
                       else Note(old(gains), Gain(before, Held(Min(old(written.lo), value), Max(old(written.hi), value)), false))
    {
      hide Covers, Shaped, Note;
      if written.lo != value || written.hi != value {
        written := Held(Min(written.lo, value), Max(written.hi, value));
        NoteFrom(before, was);
      } else {
        ControlsMovedTo(was);
      }
    }

    lemma RequestedSays()
      requires Valid()
      ensures requested.Some? ==> written.Held? && written.lo == written.hi >= requested.value
      ensures hw.step >= 0.0
    {
      hide Covers, Shaped, Fixed, Consumed, Told, Kept, Bank.AllValid;
    }

    /** More reduction keeps what the floor keeps. */
    lemma FloorRises(x: real, y: real)
      requires Fixed() && x <= y && FloorHolds(x)
      ensures FloorHolds(y)
    {
      hide Floor.Under;
      var low, high := x + Floor.GRID_SLACK * Grid(), y + Floor.GRID_SLACK * Grid();
      if AllHold(MUTE_DB) {
        forall i | 0 <= i < |speakers| ensures HoldsAt(i, high) {
          assert HoldsAt(i, low);
          Floor.UnderStays(c, Floor.Driver(speakers[i].spec, speakers[i].nodes), low, high, HoldSecs(), globals.tAmbient);
        }
      }
    }

    /** The controls were last asked for the target, not long before, and hold at least that. */
    ghost predicate AsAsked(reduction: real, now: real)
      reads `requested, `written, `lastWrite, `rate, speakers
    {
      && Fixed() && requested.Some? && IsTarget(requested.value, reduction)
      && written.Held? && written.lo >= requested.value && now - lastWrite < PING_INTERVAL
    }

    /** What is written: the governor's reduction, never under the floor; a failed write hands the card
        off. */
    method WriteReduction(reduction: real) returns (r: Outcome)
      requires Valid() && armed && reduction >= 0.0
      modifies `written, `requested, `gains, `known, `lastWrite, `targetFailures, `armed, hw`clock, hw`trace, hw`failed
      ensures r.Fine? ==> Valid() && hw.clock >= old(hw.clock)
      ensures hw.failed >= old(hw.failed) && (r.Fatal? || !armed ==> hw.failed > old(hw.failed))
      ensures r.Fine? && armed ==> written.Held? && written.lo == written.hi >= reduction && FloorHolds(written.lo)
      ensures r.Fine? && armed ==> AsAsked(reduction, old(hw.clock))
    {
      hide Valid, Fixed, FloorHolds, Note, AllHold, Grid;
      ValidSays();
      RequestedSays();
      var target := TargetDb(reduction);
      var now := Clock();
      if requested == Some(target) && now - lastWrite < PING_INTERVAL {
        FloorRises(target, written.lo);
        return Fine;
      }
      var a;
      ghost var before;
      a, before := Write(target);
      match a {
        case Broken => r := Fatal;
        case Ok(applied) =>
          targetFailures := 0;
          FloorRises(target, written.lo);
          r := Fine;
        case Transient =>
          if targetFailures >= MAX_CONTROL_FAILURES { return Fatal; }
          targetFailures := targetFailures + 1;
          r := Disarm();
      }
    }

    /** Renew a lock that is held, on a current model only, found current again after the ping. */
    method Renew(now: bool) returns (r: Outcome, ghost checkedAt: real)
      requires Valid() && armed
      modifies `armed, `gains, `known, `lastPing, `events, hw`clock, hw`leased, hw`pings, hw`failed
      ensures Valid() && hw.clock >= old(hw.clock)
      ensures hw.pings >= old(hw.pings)
      ensures hw.pings == old(hw.pings) ==> hw.leased == old(hw.leased) && lastPing == old(lastPing)
      ensures r.Fine? && armed && (now || old(hw.clock) - old(lastPing) >= PING_INTERVAL) ==> hw.pings > old(hw.pings)
      ensures hw.failed >= old(hw.failed) && (r.Fatal? ==> hw.failed > old(hw.failed))
      ensures r.Fine? && !armed ==> !FreshEnough(hw.clock)
      ensures r.Fine? && armed && hw.pings != old(hw.pings) ==> hw.leased <= checkedAt <= hw.clock && FreshEnough(checkedAt)
    {
      hide Valid;
      ValidSays();
      checkedAt := hw.clock;
      var t := Clock();
      if !now && t - lastPing < PING_INTERVAL { return Fine, checkedAt; }
      t := Clock();
      if FreshEnough(t) {
        r := PingLock();
        if r.Fatal? { return; }
        t := Clock();
        checkedAt := t;
        if !FreshEnough(t) { r := Disarm(); }
      } else {
        r := Disarm();
      }
    }

    // ---- the decision --------------------------------------------------------------------------------

    /** No driver's fault is latched, and none asks for `db` or more. */
    ghost predicate Calm(db: real)
      reads speakers
    {
      forall i :: 0 <= i < |speakers| ==> !speakers[i].hard && speakers[i].reductionDb < db
    }

    /** What holds whenever the guard keeps the card after a look: no fault, the governor under its most,
        the controls at the governor's reduction or more, and over the floor. */
    ghost predicate Safe()
      reads `armed, `written, `rate, speakers
    {
      armed ==>
        && Fixed() && Calm(maxReduction)
        && written.Held? && written.lo == written.hi && FloorHolds(written.lo)
        && forall i :: 0 <= i < |speakers| ==> speakers[i].reductionDb <= written.lo
    }

    method SeenNow() returns (ds: seq<Threats.Seen>)
      ensures |ds| == |speakers|
      ensures forall i :: 0 <= i < |ds| ==>
        ds[i] == Threats.Seen(speakers[i].spec, speakers[i].nodes, speakers[i].thermalDb, speakers[i].pRecent)
    {
      ds := [];
      for i := 0 to |speakers|
        invariant |ds| == i
        invariant forall k :: 0 <= k < i ==>
          ds[k] == Threats.Seen(speakers[k].spec, speakers[k].nodes, speakers[k].thermalDb, speakers[k].pRecent)
      {
        ds := ds + [Threats.Seen(speakers[i].spec, speakers[i].nodes, speakers[i].thermalDb, speakers[i].pRecent)];
      }
    }

    ghost predicate Sees(ds: seq<Threats.Seen>)
      reads speakers
    {
      && |ds| == |speakers|
      && forall i :: 0 <= i < |ds| ==>
           ds[i] == Threats.Seen(speakers[i].spec, speakers[i].nodes, speakers[i].thermalDb, speakers[i].pRecent)
    }

    /** Audio already converted could take a coil near its limit. */
    ghost predicate Threatened(now: real)
      requires Fixed()
      reads `gains, `unlockedAt, `rate, speakers
    {
      forall ds | Sees(ds) && Threats.ValidSeen(ds) ::
        Threats.Threat(c, ds, gains, unlockedAt, COPY_QUEUE_FRAMES / TimingRate(), now, globals.tAmbient)
    }

    /** `watts` in driver `k` for `secs` would keep its coil short of the margin. */
    predicate Short(k: nat, watts: real, secs: real)
      requires k < |speakers| && ValidSpec(speakers[k].spec)
      reads speakers[k]
    {
      PeakIf(c, speakers[k].spec, speakers[k].nodes, watts, secs, globals.tAmbient)
        < speakers[k].spec.tLimit - Floor.FLUSH_MARGIN_K
    }

    /** Some program could give driver `k` so much through what the controls really held in the window. */
    ghost predicate Through(now: real, i: nat, k: nat, watts: real)
      requires Fixed()
      reads `unlockedAt, hw`trace
    {
      && Threats.Alive(hw.trace, unlockedAt, now, i)
      && k < |speakers| && watts <= WorstCase(c, speakers[k].spec, hw.trace[i].db)
    }

    /** No program at all through anything the controls really held since QUEUE_BOUND ago, and since the lock
        was taken, can bring a coil within the margin of its limit before the next look. */
    ghost predicate OutOfReach(now: real)
      requires Fixed()
      reads `unlockedAt, hw`trace, speakers
    {
      forall i, k, watts :: Through(now, i, k, watts) ==> Short(k, watts, Threats.REACH_HORIZON)
    }

    /** The log has an entry for the window that is no mute. */
    predicate Heard(now: real)
      reads `unlockedAt, `gains
    {
      Threats.Audible(HeldSpans(gains, Threats.Since(unlockedAt, now), now)) != []
    }

    /** The program as last seen in driver `k`, through any reduction `r` of up to the most held, would give it
        so much through what the controls really held. */
    ghost predicate SeenThrough(now: real, i: nat, k: nat, r: real, watts: real)
      requires Fixed() && Heard(now)
      reads `unlockedAt, `gains, hw`trace, speakers
    {
      && Through(now, i, k, watts) && speakers[k].pRecent >= 0.0
      && r <= Threats.MostHeld(gains, unlockedAt, now)
      && watts <= BeforeGain(c, speakers[k].pRecent, r - hw.trace[i].db)
    }

    /** Some coil asks for so much more than the least held. */
    ghost predicate Jumped(now: real)
      requires Heard(now)
      reads `unlockedAt, `gains, speakers
    {
      exists m :: 0 <= m < |speakers|
        && speakers[m].thermalDb - Threats.LeastHeld(gains, unlockedAt, now) > Threats.FLUSH_JUMP_DB
    }

    /** How long what was queued at the least held still plays. */
    function QueuePlays(now: real): real
      requires Heard(now)
      reads `unlockedAt, `gains, `rate
    {
      Threats.Plays(gains, unlockedAt, COPY_QUEUE_FRAMES / TimingRate(), now,
                    Threats.LeastHeld(gains, unlockedAt, now))
    }

    /** Nor, once a coil asks for much more than the least held, can the program as last seen, for as long as
        what was queued at that least still plays. */
    ghost predicate OutOfQueue(now: real)
      requires Fixed()
      reads `unlockedAt, `gains, `rate, hw`trace, speakers
    {
      Heard(now) && Jumped(now) ==>
        forall i, k, r, watts :: SeenThrough(now, i, k, r, watts) ==> Short(k, watts, QueuePlays(now))
    }

    lemma UnthreatenedSays(now: real, ds: seq<Threats.Seen>)
      requires Valid() && now == hw.clock && Sees(ds) && Threats.ValidSeen(ds)
      requires !Threats.Threat(c, ds, gains, unlockedAt, COPY_QUEUE_FRAMES / TimingRate(), now, globals.tAmbient)
      ensures OutOfReach(now) && OutOfQueue(now)
    {
      LogSays(now);
      hide Valid, Threats.Threat, Threats.Alive, Threats.Plays, Threats.LeastHeld, Threats.MostHeld, Threats.Audible;
      hide HeldSpans, Copies, Covers, PeakIf, WorstCase, BeforeGain;
      var queue := COPY_QUEUE_FRAMES / TimingRate();
      forall i, k, watts | Through(now, i, k, watts) ensures Short(k, watts, Threats.REACH_HORIZON) {
        Threats.NoThreatHolds(c, ds, gains, hw.trace, prunedTo, unlockedAt, queue, now, globals.tAmbient, i, k, watts);
      }
      if Heard(now) && Jumped(now) {
        QueueSays(now, ds);
      }
    }

    lemma QueueSays(now: real, ds: seq<Threats.Seen>)
      requires Fixed() && unlockedAt <= now && Sees(ds) && Threats.ValidSeen(ds) && Heard(now) && Jumped(now)
      requires Covers(gains, hw.trace, prunedTo) && Copies(gains, now) && prunedTo <= now - QUEUE_BOUND
      requires !Threats.Threat(c, ds, gains, unlockedAt, COPY_QUEUE_FRAMES / TimingRate(), now, globals.tAmbient)
      ensures OutOfQueue(now)
    {
      hide Threats.Threat, Threats.Alive, Threats.Plays, Threats.LeastHeld, Threats.MostHeld, Threats.Audible;
      hide HeldSpans, Copies, Covers, PeakIf, WorstCase, BeforeGain, Lawful, Bank.Sound;
      FixedIs();
      var queue, least := COPY_QUEUE_FRAMES / TimingRate(), Threats.LeastHeld(gains, unlockedAt, now);
      var m :| 0 <= m < |speakers| && speakers[m].thermalDb - least > Threats.FLUSH_JUMP_DB;
      Threats.MostThermalIs(ds, m);
      forall i, k, r, watts | SeenThrough(now, i, k, r, watts) ensures Short(k, watts, QueuePlays(now)) {
        Threats.QueueHolds(c, ds, gains, hw.trace, prunedTo, unlockedAt, queue, now, globals.tAmbient, i, k, r, watts);
      }
    }

    lemma LogSays(now: real)
      requires Valid() && now == hw.clock
      ensures Lawful(c) && Fixed() && Covers(gains, hw.trace, prunedTo) && Copies(gains, now) && prunedTo <= now - QUEUE_BOUND
      ensures unlockedAt <= now
    {
      hide Covers, Nearly, Consumed, Told, Kept, Bank.AllValid, Lawful;
      ShapedLater(gains, KERNEL_LOCK_TIMEOUT, known, hw.clock);
      ShapedIsNear(gains, KERNEL_LOCK_TIMEOUT, hw.clock);
    }

    /** Whether either rule finds a coil at risk; if not, what that means for the coils. */
    method QueueThreat(now: real) returns (threat: bool)
      requires Valid() && now == hw.clock && Fixed()
      ensures threat <==> Threatened(now)
      ensures !threat ==> OutOfReach(now) && OutOfQueue(now)
    {
      hide Valid, Threats.Threat, OutOfReach, OutOfQueue;
      FixedIs();
      var ds := SeenNow();
      threat := Threats.Threat(c, ds, gains, unlockedAt, COPY_QUEUE_FRAMES / TimingRate(), now, globals.tAmbient);
      assert Sees(ds) && Threats.ValidSeen(ds);
      forall other | Sees(other) && Threats.ValidSeen(other)
        ensures Threats.Threat(c, other, gains, unlockedAt, COPY_QUEUE_FRAMES / TimingRate(), now, globals.tAmbient) == threat
      {
        assert other == ds;
      }
      if !threat { UnthreatenedSays(now, ds); }
    }

    /** While the lock is held: the faults, the reduction's limit, the data and what is queued decide
        whether it is given up. */
    method Keep(now: real, reduction: real, hard: bool) returns (r: Outcome)
      requires Valid() && armed && Fixed() && now == hw.clock
      modifies `armed, `gains, `known, `freshPeriods, hw`clock, hw`failed
      ensures Valid() && hw.clock >= old(hw.clock)
      ensures Fixed()
      ensures hw.failed >= old(hw.failed) && (r.Fatal? ==> hw.failed > old(hw.failed))
      ensures armed <==> old(MayKeep(now, reduction, hard))
      ensures armed ==> !hard && reduction < maxReduction
      ensures !hard && reduction < maxReduction && Overdue(now) <= BLIND_LIMIT && old(Threatened(now)) ==> freshPeriods == 0
      ensures armed ==> OutOfReach(now) && OutOfQueue(now)
    {
      hide Valid, Threatened, OutOfReach, OutOfQueue;
      r := Fine;
      var threat := QueueThreat(now);
      if Overdue(now) > BLIND_LIMIT || hard || reduction >= maxReduction {
        r := Disarm();
      } else if threat {
        freshPeriods := 0;
        r := Disarm();
      }
    }

    /** Nothing plays unseen, or enough of it has been seen again. */
    predicate Seeing(blind: real)
      reads `playing, `freshPeriods
    {
      !playing || (freshPeriods >= REARM_PERIODS && blind <= BLIND_SLACK)
    }

    /** Nothing but the card and the clock stands against taking the lock. */
    predicate MayTake(blind: real, reduction: real)
      reads `playing, `freshPeriods, `invalidated, `safeMismatch
    {
      Seeing(blind) && reduction < maxReduction - REARM_MARGIN_DB && invalidated && !safeMismatch
    }

    /** While it is not: the old clean stop goes first, then the lock is taken, if the guard sees and the
        model allows it. */
    method Take(blind: real, reduction: real) returns (r: Outcome, ghost checkedAt: real)
      requires Valid() && !armed && !stopping && !unknown && hw.events
      modifies `armed, `written, `requested, `gains, `known, `minFailures, `lastPing, `safeMismatch, `unlockedAt, `events
      modifies `invalidated, `marked, `lastSaveTry
      modifies hw`clock, hw`trace, hw`leased, hw`pings, hw`failed, hw`levels, hw`disk
      ensures r.Fine? ==> Valid() && hw.clock >= old(hw.clock) && hw.pings >= old(hw.pings)
      ensures hw.failed >= old(hw.failed) && (r.Fatal? ==> hw.failed > old(hw.failed))
      ensures r.Fine? && !armed ==> !MayTake(blind, reduction) || hw.failed > old(hw.failed) || !FreshEnough(hw.clock)
      ensures hw.pings == old(hw.pings) ==> lastPing == old(lastPing)
      ensures r.Fine? && armed ==> !playing || (freshPeriods >= REARM_PERIODS && blind <= BLIND_SLACK)
      ensures r.Fine? && armed ==> hw.pings > old(hw.pings)
      ensures r.Fine? && armed ==>
        reduction < maxReduction - REARM_MARGIN_DB && hw.leased <= checkedAt <= hw.clock && FreshEnough(checkedAt)
    {
      hide Valid;
      ValidSays();
      r, checkedAt := Fine, hw.clock;
      if !Seeing(blind) || reduction >= maxReduction - REARM_MARGIN_DB { return; }
      if !invalidated { TryInvalidate(); }
      if invalidated && !safeMismatch {
        r, checkedAt := Unlock();
      }
    }

    method TryInvalidate()
      requires Valid() && !armed && !invalidated && !stopping
      modifies `invalidated, `marked, `lastSaveTry, `events, hw`clock, hw`disk
      ensures Valid() && !armed && hw.clock >= old(hw.clock)
    {
      hide Valid;
      var now := Clock();
      if lastSaveTry.None? || now - lastSaveTry.value >= SAVE_INTERVAL {
        InvalidateNow();
      }
    }

    /** What the model asks of the card now. */
    ghost predicate Asks(reduction: real, hard: bool)
      reads speakers
    {
      && reduction >= 0.0
      && (forall i :: 0 <= i < |speakers| ==> speakers[i].reductionDb <= reduction)
      && (hard <==> exists i :: 0 <= i < |speakers| && speakers[i].hard)
    }

    /** The lock's part of the decision. */
    method DecideLock(now: real, reduction: real, hard: bool, renewNow: bool) returns (r: Outcome, ghost checkedAt: real)
      requires Valid() && now == hw.clock && Asks(reduction, hard)
      modifies `armed, `written, `requested, `gains, `known, `minFailures, `lastPing, `safeMismatch, `unlockedAt, `events
      modifies `invalidated, `marked, `lastSaveTry, `freshPeriods, `lastWrite, `targetFailures
      modifies hw`clock, hw`trace, hw`leased, hw`pings, hw`failed, hw`levels, hw`disk
      ensures r.Fine? ==> Valid()
      ensures r.Fine? && armed ==> !hard && reduction < maxReduction
      ensures hw.clock >= old(hw.clock) || r.Fatal?
      ensures r.Fine? && armed && hw.pings == old(hw.pings) ==> old(armed) && hw.leased == old(hw.leased)
      ensures r.Fine? && armed ==> written.Held? && written.lo == written.hi >= reduction && Fixed() && FloorHolds(written.lo)
      ensures r.Fine? && armed ==> AsAsked(reduction, now) && now - lastWrite < PING_INTERVAL
      ensures r.Fine? && armed && hw.pings != old(hw.pings) ==> hw.leased <= checkedAt <= hw.clock && FreshEnough(checkedAt)
      ensures r.Fine? && old(stopping) ==> hw.pings == old(hw.pings)
      ensures r.Fine? && armed && hw.pings == old(hw.pings) ==>
        lastPing == old(lastPing) && Recent(renewNow, old(hw.clock), old(lastPing))
      ensures hw.failed >= old(hw.failed) && (r.Fatal? ==> hw.failed > old(hw.failed))
      ensures r.Fine? && !armed && old(armed && !Lapsed(now)) ==>
        !old(MayKeep(now, reduction, hard)) || hw.failed > old(hw.failed) || !FreshEnough(hw.clock)
      ensures r.Fine? && !armed && !old(armed && !Lapsed(now)) && !stopping && !unknown && !hard && hw.events && !renewNow ==>
        !MayTake(Overdue(now), reduction) || hw.failed > old(hw.failed) || !FreshEnough(hw.clock)
      ensures r.Fine? ==> hw.pings >= old(hw.pings)
    {
      hide Valid, FloorHolds, Fixed, MayKeep, MayTake, FreshEnough, Overdue, AsAsked;
      ValidSays();
      r, checkedAt := KeepOrTake(now, reduction, hard, renewNow);
      if r.Fatal? || !armed { return; }
      label L:
      ghost var at := hw.clock;
      r, checkedAt := WriteAndRenew(reduction, renewNow, checkedAt);
      AskedSooner(reduction, now, at);
    }

    lemma AskedSooner(reduction: real, a: real, b: real)
      requires a <= b
      ensures AsAsked(reduction, b) ==> AsAsked(reduction, a) && a - lastWrite < PING_INTERVAL
    {
      hide Fixed, IsTarget;
    }

    /** The last ping was less than PING_INTERVAL before, and none was asked for. */
    predicate Recent(renewNow: bool, now: real, pinged: real) {
      !renewNow && now - pinged < PING_INTERVAL
    }

    /** The lease may have run out. */
    predicate Lapsed(now: real)
      reads `lastPing
    {
      now >= lastPing + KERNEL_LOCK_TIMEOUT
    }

    /** The faults, the reduction's limit, the data and what is queued all let the lock be kept. */
    ghost predicate MayKeep(now: real, reduction: real, hard: bool)
      requires Fixed()
      reads `dt, `seenTo, `gains, `unlockedAt, `rate, speakers
    {
      && !hard && reduction < maxReduction && Overdue(now) <= BLIND_LIMIT && !Threatened(now)
    }

    /** Whether the lock is held for the rest of the pass. */
    method KeepOrTake(now: real, reduction: real, hard: bool, renewNow: bool) returns (r: Outcome, ghost checkedAt: real)
      requires Valid() && now == hw.clock
      modifies `armed, `written, `requested, `gains, `known, `minFailures, `lastPing, `safeMismatch, `unlockedAt, `events
      modifies `invalidated, `marked, `lastSaveTry, `freshPeriods
      modifies hw`clock, hw`trace, hw`leased, hw`pings, hw`failed, hw`levels, hw`disk
      ensures r.Fine? ==> Valid() && hw.clock >= old(hw.clock) && hw.pings >= old(hw.pings)
      ensures r.Fine? && armed ==> !hard && reduction < maxReduction && !stopping
      ensures r.Fine? && armed && hw.pings == old(hw.pings) ==> old(armed) && hw.leased == old(hw.leased)
      ensures r.Fine? && armed && hw.pings != old(hw.pings) ==> hw.leased <= checkedAt <= hw.clock && FreshEnough(checkedAt)
      ensures r.Fine? && old(stopping) ==> hw.pings == old(hw.pings)
      ensures hw.pings == old(hw.pings) ==> lastPing == old(lastPing)
      ensures hw.failed >= old(hw.failed) && (r.Fatal? ==> hw.failed > old(hw.failed))
      ensures r.Fine? && old(armed && !Lapsed(now)) ==> (armed <==> old(MayKeep(now, reduction, hard)))
      ensures r.Fine? && !armed && !old(armed && !Lapsed(now)) && !stopping && !unknown && !hard && hw.events && !renewNow ==>
        !MayTake(Overdue(now), reduction) || hw.failed > old(hw.failed) || !FreshEnough(hw.clock)
    {
      hide Valid, FreshEnough, OutOfReach, OutOfQueue, MayKeep, MayTake, Fixed, Overdue;
      ValidSays();
      checkedAt := hw.clock;
      var blind := Overdue(now);
      r := Lapse(now);
      if r.Fatal? { return; }
      if armed {
        r := Keep(now, reduction, hard);
      } else if !stopping && !unknown && !hard && hw.events && !renewNow {
        r, checkedAt := Take(blind, reduction);
      }
    }

    /** The reduction written, then the lock renewed. */
    method WriteAndRenew(reduction: real, renewNow: bool, ghost earlier: real) returns (r: Outcome, ghost checkedAt: real)
      requires Valid() && armed && reduction >= 0.0
      modifies `written, `requested, `gains, `known, `lastWrite, `targetFailures, `armed, `lastPing, `events
      modifies hw`clock, hw`trace, hw`leased, hw`pings, hw`failed
      ensures hw.failed >= old(hw.failed) && (r.Fatal? ==> hw.failed > old(hw.failed))
      ensures r.Fine? && !armed ==> hw.failed > old(hw.failed) || !FreshEnough(hw.clock)
      ensures r.Fine? && armed && hw.pings == old(hw.pings) ==> Recent(renewNow, old(hw.clock), old(lastPing))
      ensures r.Fine? ==> Valid() && hw.clock >= old(hw.clock)
      ensures r.Fine? && armed ==> written.Held? && written.lo == written.hi >= reduction && Fixed() && FloorHolds(written.lo)
      ensures r.Fine? && armed ==> AsAsked(reduction, old(hw.clock))
      ensures hw.pings >= old(hw.pings)
      ensures r.Fine? && armed && hw.pings != old(hw.pings) ==> hw.leased <= checkedAt <= hw.clock && FreshEnough(checkedAt)
      ensures hw.pings == old(hw.pings) ==> checkedAt == earlier && hw.leased == old(hw.leased) && lastPing == old(lastPing)
    {
      hide Valid, FloorHolds, AsAsked;
      checkedAt := earlier;
      ValidSays();
      r := WriteReduction(reduction);
      if r.Fatal? || !armed { return; }
      r, checkedAt := RenewKept(renewNow, checkedAt);
    }

    lemma ValidSays()
      requires Valid()
      ensures Fixed() && hw.Valid() && Bank.AllValid(speakers)
      ensures armed ==> !stopping && !unknown && !safeMismatch && hw.events && invalidated && Consumed()
    {}

    /** The guard was late and the card may have taken its volume back: give it up, to take it again the
        safe way. */
    method Lapse(now: real) returns (r: Outcome)
      requires Valid() && now <= hw.clock
      modifies `armed, `gains, `known, hw`clock, hw`failed
      ensures Valid() && hw.clock >= old(hw.clock)
      ensures armed <==> old(armed) && now < lastPing + KERNEL_LOCK_TIMEOUT
      ensures armed || !old(armed) ==> hw.clock == old(hw.clock) && gains == old(gains) && r.Fine?
      ensures hw.failed == old(hw.failed) + if r.Fatal? then 1 else 0
    {
      r := Fine;
      if armed && now >= lastPing + KERNEL_LOCK_TIMEOUT {
        MarkLapse();
        r := Disarm();
      }
    }

    /** A renewal, or the check of an earlier ping of the same pass. */
    method RenewKept(renewNow: bool, ghost earlier: real) returns (r: Outcome, ghost checkedAt: real)
      requires Valid() && armed
      modifies `armed, `gains, `known, `lastPing, `events, hw`clock, hw`leased, hw`pings, hw`failed
      ensures Valid() && hw.clock >= old(hw.clock)
      ensures hw.failed >= old(hw.failed) && (r.Fatal? ==> hw.failed > old(hw.failed))
      ensures r.Fine? && !armed ==> !FreshEnough(hw.clock)
      ensures r.Fine? && armed && hw.pings == old(hw.pings) ==> Recent(renewNow, old(hw.clock), old(lastPing))
      ensures r.Fine? && armed && hw.pings != old(hw.pings) ==> hw.leased <= checkedAt <= hw.clock && FreshEnough(checkedAt)
      ensures hw.pings >= old(hw.pings)
      ensures hw.pings == old(hw.pings) ==> checkedAt == earlier && hw.leased == old(hw.leased) && lastPing == old(lastPing)
    {
      r, checkedAt := Renew(renewNow);
      if hw.pings == old(hw.pings) { checkedAt := earlier; }
    }

    /** Nothing a look decides moved but the account. */
    twostate predicate OnlyAccounted()
      reads this
    {
      && accountTo >= old(accountTo) && dt == old(dt) && seenTo == old(seenTo) && playing == old(playing)
      && stopping == old(stopping) && unknown == old(unknown) && rate == old(rate) && stall == old(stall)
      && closedSeen == old(closedSeen) && eventPending == old(eventPending)
    }

    /** Every driver's thermal time moved as the account did. */
    twostate predicate TimeKept()
      reads `accountTo, speakers
    {
      forall i :: 0 <= i < |speakers| ==> speakers[i].heated == old(speakers[i].heated) + (accountTo - old(accountTo))
    }

    /** Nothing can cover the time since the account's end any more. */
    predicate Unseen(now: real)
      reads `unknown, `playing, `dt, `seenTo
    {
      unknown || (playing && Overdue(now) > BLIND_SLACK)
    }

    /** The account brought up to now, if nothing else can cover the time since its end. */
    method ChargeUnseen(now: real)
      requires Valid() && now <= hw.clock
      modifies `accountTo, `known, `booked, speakers
      ensures Valid() && OnlyAccounted() && TimeKept()
      ensures if Unseen(now)
              then accountTo == Max(old(accountTo), now)
                && Charged(old(SnapsNow()), old(accountTo), old(LeastNow()))
              else accountTo == old(accountTo)
      ensures Page() == if Unseen(now) then Books.AfterCharge(old(Page()), written, now) else old(Page())
    {
      hide Valid, Charged, SnapsNow, LeastNow, Overdue, Books.AfterCharge;
      if unknown || (playing && Overdue(now) > BLIND_SLACK) {
        ChargeTo(now);
      }
    }

    /** The account as current as it can be, and what the model then asks of the card. */
    method BringUpToDate(now: real) returns (reduction: real, hard: bool)
      requires Valid() && now <= hw.clock
      modifies `accountTo, `known, `booked, speakers
      ensures Valid() && OnlyAccounted() && TimeKept() && Asks(reduction, hard)
      ensures if Unseen(now)
              then accountTo == Max(old(accountTo), now)
                && Charged(old(SnapsNow()), old(accountTo), old(LeastNow()))
              else accountTo == old(accountTo)
      ensures Page() == if Unseen(now) then Books.AfterCharge(old(Page()), written, now) else old(Page())
    {
      hide LogOk, LockOk, Told, Kept, Fixed, Charged, SnapsNow, TimeKept, OnlyAccounted, Unseen, LeastNow, Books.AfterCharge;
      ChargeUnseen(now);
      reduction := Bank.MostReduction(speakers);
      hard := Bank.AnyHard(speakers);
    }

    /** Every driver's fault cleared exactly if it is under its working ceiling, and nothing else moved. */
    twostate predicate AllCleared()
      reads speakers
    {
      forall i :: 0 <= i < |speakers| ==> speakers[i].tPeak.Peak? && Bank.Cleared(speakers[i])
    }

    /** A cleared fault takes effect from the next pass. */
    method ClearFaults()
      requires Valid() && Safe()
      modifies `booked, speakers
      ensures Valid() && Safe()
      ensures AllCleared()
      ensures forall i :: 0 <= i < |speakers| ==> speakers[i].heated == old(speakers[i].heated)
      ensures OnlyCleared(old(booked))
    {
      hide Sound, Told, Kept, Safe, SnapsNow, Bank.IsCool, WereAt, TookAll, KeptAs, Books.Chain, AllFormed, Bank.AllGoverned;
      SoundSays();
      KeptSays();
      SnapsAre();
      ghost var was := SnapsNow();
      ClearDrivers();
      SafeStays();
      ghost var x := Books.Clearing(seq(|speakers|, i requires 0 <= i < |speakers| reads speakers => speakers[i].hard));
      ClearTakes(was, x);
      StepsKept(was, x, accountTo);
      Enter(x);
    }

    method ClearDrivers()
      requires Sound() && Fixed() && Bank.AllGoverned(speakers, globals)
      modifies speakers
      ensures Sound() && Fixed() && Bank.AllGoverned(speakers, globals)
      ensures AllCleared()
    {
      hide LogOk, LockOk, Bank.IsCool;
      Bank.ClearAll(speakers);
    }

    twostate lemma SafeStays()
      requires old(Safe()) && rate == old(rate) && armed == old(armed) && written == old(written)
      requires AllCleared()
      ensures Safe()
    {
      hide Floor.Under, Bank.IsCool;
      assert forall i, db :: 0 <= i < |speakers| && ValidSpec(speakers[i].spec) ==> HoldsAt(i, db) == old(HoldsAt(i, db));
    }

    lemma ClearTakes(was: seq<Snap>, x: Books.Booking)
      requires Fixed() && |was| == |speakers| && x.Clearing? && |x.hard| == |speakers|
      requires forall i :: 0 <= i < |speakers| ==>
        speakers[i].Now() == was[i].(hard := speakers[i].hard) && (speakers[i].hard ==> was[i].hard) && x.hard[i] == speakers[i].hard
      ensures TookAll(was, x)
    {
      hide Lawful;
    }

    /** A booking beside the account. */
    ghost method Enter(x: Books.Booking)
      requires Sound() && Told() && KeptAs(booked + [x], accountTo)
      modifies `booked
      ensures Valid() && booked == old(booked) + [x]
    {
      hide LogOk, LockOk, Fixed, KeptAs, Bank.AllValid;
      booked := booked + [x];
    }

    /** Booked since: cleared faults. */
    ghost predicate OnlyCleared(xs: seq<Books.Booking>)
      reads `booked
    {
      |booked| == |xs| + 1 && booked[..|xs|] == xs && booked[|xs|].Clearing?
    }

    /** Booked since: a charge up to where the account is now, if it moved; and the faults cleared. */
    ghost predicate ChargedOnly(xs: seq<Books.Booking>, from: real, least: real, cleared: bool)
      reads `booked, `accountTo
    {
      var ys := xs + Books.ChargeOf(from, accountTo, least);
      if cleared then OnlyCleared(ys) else booked == ys
    }

    /** The one place a ping comes from. A pass that succeeds leaves the lock either given up or with all its
        conditions met, the last ping's among them: pinged in this pass, or not due. Only a call that failed is
        fatal. */
    method Decide(renewNow: bool) returns (r: Outcome, ghost checkedAt: real)
      requires Valid()
      modifies `armed, `written, `requested, `gains, `known, `minFailures, `lastPing, `safeMismatch, `unlockedAt, `events
      modifies `invalidated, `marked, `lastSaveTry, `freshPeriods, `lastWrite, `targetFailures, `accountTo, `booked, speakers
      modifies hw`clock, hw`trace, hw`leased, hw`pings, hw`failed, hw`levels, hw`disk
      ensures r.Fine? ==> Valid() && Safe() && OnlyAccounted() && TimeKept() && hw.clock >= old(hw.clock)
      ensures r.Fine? && armed && hw.pings == old(hw.pings) ==> old(armed) && hw.leased == old(hw.leased)
      ensures r.Fine? && armed && hw.pings == old(hw.pings) ==>
        lastPing == old(lastPing) && Recent(renewNow, old(hw.clock), old(lastPing))
      ensures r.Fine? && armed ==> old(hw.clock) - lastWrite < PING_INTERVAL
      ensures r.Fine? && armed && hw.pings != old(hw.pings) ==> hw.leased <= checkedAt <= hw.clock && FreshEnough(checkedAt)
      ensures r.Fine? && old(stopping) ==> hw.pings == old(hw.pings)
      ensures hw.failed >= old(hw.failed) && (r.Fatal? ==> hw.failed > old(hw.failed))
      ensures r.Fine? ==> hw.pings >= old(hw.pings)
      ensures r.Fine? && old(Unseen(hw.clock)) ==> accountTo >= old(hw.clock)
      ensures r.Fine? && accountTo != old(accountTo) ==> Unseen(hw.clock)
      ensures r.Fine? ==> ChargedOnly(old(booked), old(accountTo), old(LeastNow()), !renewNow)
      ensures r.Fine? && !renewNow && setup.state.Some? ==>
        lastSaveTry.Some? && old(hw.clock) - lastSaveTry.value < SAVE_INTERVAL
    {
      hide Valid, LeastSince, FreshEnough, Unseen, Overdue, Safe, ChargedOnly, AllCleared, OnlyCleared, Books.ChargeOf;
      r, checkedAt := DecideNow(renewNow);
      if r.Fatal? { return; }
      if renewNow {
        NothingCleared(old(booked), old(accountTo), old(LeastNow()));
        return;
      }
      ghost var before, now := booked, hw.clock;
      ClearFaults();
      FaultsCleared(before, old(booked), old(accountTo), old(LeastNow()));
      SaveIfDue();
      UnseenLater(now, hw.clock);
    }

    /** All but the faults it clears. */
    method DecideNow(renewNow: bool) returns (r: Outcome, ghost checkedAt: real)
      requires Valid()
      modifies `armed, `written, `requested, `gains, `known, `minFailures, `lastPing, `safeMismatch, `unlockedAt, `events
      modifies `invalidated, `marked, `lastSaveTry, `freshPeriods, `lastWrite, `targetFailures, `accountTo, `booked, speakers
      modifies hw`clock, hw`trace, hw`leased, hw`pings, hw`failed, hw`levels, hw`disk
      ensures r.Fine? ==> Valid() && Safe() && OnlyAccounted() && TimeKept() && hw.clock >= old(hw.clock)
      ensures r.Fine? && armed && hw.pings == old(hw.pings) ==> old(armed) && hw.leased == old(hw.leased)
      ensures r.Fine? && armed && hw.pings == old(hw.pings) ==>
        lastPing == old(lastPing) && Recent(renewNow, old(hw.clock), old(lastPing))
      ensures r.Fine? && armed ==> old(hw.clock) - lastWrite < PING_INTERVAL
      ensures r.Fine? && armed && hw.pings != old(hw.pings) ==> hw.leased <= checkedAt <= hw.clock && FreshEnough(checkedAt)
      ensures r.Fine? && old(stopping) ==> hw.pings == old(hw.pings)
      ensures hw.failed >= old(hw.failed) && (r.Fatal? ==> hw.failed > old(hw.failed))
      ensures r.Fine? ==> hw.pings >= old(hw.pings)
      ensures r.Fine? && old(Unseen(hw.clock)) ==> accountTo >= old(hw.clock)
      ensures r.Fine? && accountTo != old(accountTo) ==> Unseen(hw.clock)
      ensures r.Fine? ==> booked == old(booked) + Books.ChargeOf(old(accountTo), accountTo, old(LeastNow()))
    {
      hide Valid, FloorHolds, Fixed, LeastSince, FreshEnough, Asks, Safe, MayKeep, MayTake, Unseen, Books.ChargeOf, Lapsed, Recent,
           LeastNow, AsAsked;
      var now, reduction, hard := AskNow();
      r, checkedAt := DecideLock(now, reduction, hard, renewNow);
      if r.Fatal? { return; }
      UnseenLater(now, hw.clock);
      RecentSooner(renewNow, old(hw.clock), now, old(lastPing));
      IsSafe(reduction, hard);
    }

    /** The clock read, the account brought up to it, and what the model asks for. */
    method AskNow() returns (now: real, reduction: real, hard: bool)
      requires Valid()
      modifies `accountTo, `known, `booked, speakers, hw`clock
      ensures Valid() && Asks(reduction, hard) && old(hw.clock) <= now == hw.clock
      ensures OnlyAccounted() && TimeKept()
      ensures booked == old(booked) + Books.ChargeOf(old(accountTo), accountTo, old(LeastNow()))
      ensures old(Unseen(hw.clock)) ==> accountTo >= old(hw.clock)
      ensures accountTo != old(accountTo) ==> Unseen(now)
    {
      hide Valid, Charged, LeastSince, Asks, Unseen, Books.AfterCharge;
      now := Clock();
      reduction, hard := BringUpToDate(now);
      UnseenLater(old(hw.clock), now);
      OnlyCharged(old(Page()), written, now);
    }

    /** The charge before a decision is all it books ... */
    lemma OnlyCharged(p: Books.Page, held: Held, now: real)
      requires Page() == p || Page() == Books.AfterCharge(p, held, now)
      ensures booked == p.booked + Books.ChargeOf(p.account, accountTo, Books.LeastOn(p, held))
    {}

    lemma NothingCleared(xs: seq<Books.Booking>, from: real, least: real)
      requires booked == xs + Books.ChargeOf(from, accountTo, least)
      ensures ChargedOnly(xs, from, least, false)
    {}

    /** ... but for the faults it clears. */
    lemma FaultsCleared(before: seq<Books.Booking>, xs: seq<Books.Booking>, from: real, least: real)
      requires before == xs + Books.ChargeOf(from, accountTo, least)
      requires OnlyCleared(before)
      ensures ChargedOnly(xs, from, least, true)
    {}

    lemma RecentSooner(renewNow: bool, a: real, b: real, pinged: real)
      requires a <= b
      ensures Recent(renewNow, b, pinged) ==> Recent(renewNow, a, pinged)
    {}

    /** What is overdue stays so. */
    lemma UnseenLater(a: real, b: real)
      requires a <= b
      ensures Unseen(a) ==> Unseen(b)
    {}

    lemma IsSafe(reduction: real, hard: bool)
      requires Asks(reduction, hard)
      requires armed ==> !hard && reduction < maxReduction
      requires armed ==> written.Held? && written.lo == written.hi >= reduction && Fixed() && FloorHolds(written.lo)
      ensures Safe()
    {
      hide FloorHolds;
    }

    method SaveIfDue()
      requires Valid()
      modifies hw`clock, hw`disk, `lastSaveTry, `events
      ensures Valid() && hw.clock >= old(hw.clock)
      ensures setup.state.Some? ==> lastSaveTry.Some? && old(hw.clock) - lastSaveTry.value < SAVE_INTERVAL
    {
      hide Valid;
      var now := Clock();
      if lastSaveTry.None? || now - lastSaveTry.value >= SAVE_INTERVAL {
        var saved := SaveNow();
      }
    }

    // ---- the loop --------------------------------------------------------------------------------------

    method Events() returns (changed: bool)
      requires Valid()
      modifies hw`clock
      ensures Valid() && hw.clock >= old(hw.clock)
    {
      hide Covers, Shaped, Fixed, Consumed, Told, Kept, Bank.AllValid;
      changed := hw.RateEvents();
    }

    method RateNow() returns (a: Answer<int>)
      requires Valid()
      modifies hw`clock, hw`failed
      ensures Valid() && hw.clock >= old(hw.clock)
      ensures hw.failed == old(hw.failed) + if a.Ok? && 0 <= a.value <= 0xffff_ffff then 0 else 1
    {
      hide Covers, Shaped, Fixed, Consumed, Told, Kept, Bank.AllValid;
      a := hw.SampleRate();
    }

    method Open(rate: nat) returns (ok: bool)
      requires Valid()
      modifies hw`clock
      ensures Valid() && hw.clock >= old(hw.clock)
    {
      hide Covers, Shaped, Fixed, Consumed, Told, Kept, Bank.AllValid;
      ok := hw.OpenSense(rate);
    }

    method Period() returns (a: Answer<Reading>)
      requires Valid()
      modifies hw`clock, hw`failed, hw`periods
      ensures Valid() && hw.clock >= old(hw.clock)
      ensures hw.failed == old(hw.failed) + (if a.Ok? then 0 else 1) && hw.periods == old(hw.periods) + [a]
      ensures a.Ok? && a.value.Whole? ==> |a.value.words| == globals.period * globals.channels
    {
      hide Covers, Shaped, Fixed, Consumed, Told, Kept, Bank.AllValid;
      a := hw.ReadPeriod(globals.period * globals.channels);
    }

    method Position() returns (a: Answer<nat>)
      requires Valid()
      modifies hw`clock, hw`positions
      ensures Valid() && hw.clock >= old(hw.clock) && hw.positions == old(hw.positions) + [a]
    {
      hide Covers, Shaped, Fixed, Consumed, Told, Kept, Bank.AllValid;
      a := hw.Queued();
    }

    method Tail() returns (words: seq<int>)
      requires Valid()
      modifies hw`clock, hw`tails
      ensures Valid() && hw.clock >= old(hw.clock) && globals.channels > 0 && globals.period > 0
      ensures |words| / globals.channels <= globals.period && hw.tails == old(hw.tails) + [words]
    {
      hide Covers, Shaped, Consumed, Told, Kept, Bank.AllValid;
      words := hw.ReadTail(globals.channels, globals.period);
    }

    /** Frames whose position was read between `before` and `after`: their end lies between the two less
        the backlog. */
    method PlaceFrames(before: real, after: real, queued: nat, words: seq<int>)
      requires Valid() && before <= after <= hw.clock
      modifies `accountTo, `verifiedAt, `gains, `prunedTo, `known, `booked, speakers
      ensures Valid() && accountTo >= old(accountTo) && TimeKept()
      ensures rate > 0 && |words| >= globals.channels ==>
        accountTo == Max(old(accountTo), Placement.Place(before, after, queued, rate as real).early)
      ensures Page() == Books.AfterTake(globals, View(), old(Page()), Books.Take(before, after, queued, words))
    {
      hide Valid, Books.AfterShifted;
      var r := if rate > 0 then rate as real else 1.0;
      QuotientNonneg((queued + 1) as real, r);
      var placed := Placement.Place(before, after, queued, r);
      ghost var mid, marked := MeasureShifted(placed.early, words, placed.shift);
    }

    /** The tails that counted: as the capture gave them, each with its position read between two clock reads. */
    ghost predicate TailsAre(takes: seq<Books.Take>, words: seq<seq<int>>, positions: seq<Answer<nat>>, from: real, to: real) {
      && |takes| <= |words| && |takes| <= |positions|
      && forall i :: 0 <= i < |takes| ==> TailIs(takes[i], words[i], positions[i], from, to)
    }

    ghost predicate TailIs(take: Books.Take, words: seq<int>, position: Answer<nat>, from: real, to: real) {
      && take.words == words && position == Ok(take.queued) && from <= take.before <= take.after <= to
      && 0 < Books.Frames(globals, words) <= globals.period
    }

    ghost function FramesIn(takes: seq<Books.Take>): nat {
      if takes == [] then 0
      else FramesIn(takes[..|takes| - 1]) + Books.Frames(globals, takes[|takes| - 1].words)
    }

    /** Why no further tail was read: one is empty or cannot be placed, or the last is short or more than enough. */
    ghost predicate TailsEnd(takes: seq<Books.Take>, words: seq<seq<int>>, positions: seq<Answer<nat>>) {
      var n := |takes|;
      if |words| > n then
        && |words| == n + 1
        && (Books.Frames(globals, words[n]) == 0 || (|positions| == n + 1 && !positions[n].Ok?))
      else
        && |words| == n > 0
        && (Books.Frames(globals, takes[n - 1].words) < globals.period || FramesIn(takes) > 8 * globals.period)
    }

    /** What a closing stream's tails were taken as: all of them, or none without the capture. */
    ghost predicate TailsTaken(takes: seq<Books.Take>, words: seq<seq<int>>, positions: seq<Answer<nat>>, from: real, to: real,
                               open: bool) {
      && TailsAre(takes, words, positions, from, to)
      && if open then TailsEnd(takes, words, positions) else takes == [] && words == []
    }

    lemma TailsTakenIn(takes: seq<Books.Take>, words: seq<seq<int>>, positions: seq<Answer<nat>>, a: real, from: real, to: real,
                       b: real, open: bool)
      requires a <= from && to <= b && TailsTaken(takes, words, positions, from, to, open)
      ensures TailsTaken(takes, words, positions, a, b, open)
    {
      hide TailsEnd;
    }

    lemma TailsAll(takes: seq<Books.Take>, words: seq<seq<int>>, positions: seq<Answer<nat>>, from: real, to: real)
      requires TailsAre(takes, words, positions, from, to) && TailsEnd(takes, words, positions)
      ensures TailsTaken(takes, words, positions, from, to, true)
    {}

    lemma NoTails(from: real, to: real)
      ensures TailsTaken([], [], [], from, to, false)
    {}

    lemma OneTail(takes: seq<Books.Take>, words: seq<seq<int>>, positions: seq<Answer<nat>>, from: real, to: real, w: seq<int>,
                  p: Answer<nat>, take: Books.Take, now: real)
      requires TailsAre(takes, words, positions, from, to) && |takes| == |words| == |positions| && to <= now
      requires TailIs(take, w, p, from, now)
      ensures TailsAre(takes + [take], words + [w], positions + [p], from, now)
      ensures FramesIn(takes + [take]) == FramesIn(takes) + Books.Frames(globals, w)
      ensures Books.Frames(globals, w) < globals.period || FramesIn(takes) + Books.Frames(globals, w) > 8 * globals.period ==>
        TailsEnd(takes + [take], words + [w], positions + [p])
    {
      assert (takes + [take])[..|takes|] == takes;
    }

    lemma LastTail(takes: seq<Books.Take>, words: seq<seq<int>>, positions: seq<Answer<nat>>, from: real, to: real, w: seq<int>,
                   ps: seq<Answer<nat>>, now: real)
      requires TailsAre(takes, words, positions, from, to) && |takes| == |words| == |positions| && to <= now
      requires (ps == [] && Books.Frames(globals, w) == 0) || (|ps| == 1 && !ps[0].Ok?)
      ensures TailsAre(takes, words + [w], positions + ps, from, now) && TailsEnd(takes, words + [w], positions + ps)
    {}

    /** What was read is placed and measured, if its position can be read. */
    method PlaceRead(words: seq<int>) returns (before: real, placed: bool, ghost q: Answer<nat>, ghost take: Books.Take)
      requires Valid()
      modifies `accountTo, `verifiedAt, `gains, `prunedTo, `known, `booked, speakers, hw`clock, hw`positions
      ensures Valid() && accountTo >= old(accountTo) && TimeKept() && hw.clock >= old(hw.clock)
      ensures hw.positions == old(hw.positions) + [q] && placed == q.Ok?
      ensures placed ==>
        && Page() == Books.AfterTake(globals, View(), old(Page()), take)
        && take.words == words && q == Ok(take.queued) && old(hw.clock) <= take.before == before <= take.after <= hw.clock
      ensures !placed ==> Page() == old(Page()) && SnapsNow() == old(SnapsNow())
    {
      hide Valid, Books.AfterTake, SnapsNow;
      before := Clock();
      var p := Position();
      q, placed, take := p, p.Ok?, Books.Take(0.0, 0.0, 0, []);
      if placed {
        var after := Clock();
        take := Books.Take(before, after, p.value, words);
        PlaceFrames(before, after, p.value, words);
      }
    }

    /** What the capture holds after the last whole period is measured, tail by tail. */
    method ReadTails() returns (ghost takes: seq<Books.Take>, ghost words: seq<seq<int>>, ghost positions: seq<Answer<nat>>)
      requires Valid()
      modifies `accountTo, `verifiedAt, `gains, `prunedTo, `known, `booked, speakers, hw`clock, hw`positions, hw`tails
      ensures Valid() && accountTo >= old(accountTo) && TimeKept() && hw.clock >= old(hw.clock)
      ensures hw.tails == old(hw.tails) + words && hw.positions == old(hw.positions) + positions
      ensures TailsAre(takes, words, positions, old(hw.clock), hw.clock) && TailsEnd(takes, words, positions)
      ensures Page() == Books.AfterTakes(globals, View(), old(Page()), takes)
    {
      hide Valid, Books.AfterTake, TailsAre, TailsEnd, TailIs, FramesIn;
      var measured := 0;
      var more := true;
      takes, words, positions := [], [], [];
      NoTailsYet();
      while more
        invariant Valid() && accountTo >= old(accountTo) && TimeKept() && hw.clock >= old(hw.clock)
        invariant 0 <= measured <= 8 * globals.period || !more
        invariant measured == FramesIn(takes)
        invariant hw.tails == old(hw.tails) + words && hw.positions == old(hw.positions) + positions
        invariant TailsAre(takes, words, positions, old(hw.clock), hw.clock)
        invariant if more then |words| == |takes| == |positions| else TailsEnd(takes, words, positions)
        invariant Page() == Books.AfterTakes(globals, View(), old(Page()), takes)
        decreases more, 8 * globals.period - measured
      {
        ghost var at := hw.clock;
        var tail := Tail();
        var frames := |tail| / globals.channels;
        if frames == 0 {
          LastTail(takes, words, positions, old(hw.clock), at, tail, [], hw.clock);
          words := words + [tail];
          assert positions + [] == positions;
          more := false;
        } else {
          ghost var q, take;
          var before;
          before, more, q, take := PlaceRead(tail);
          if more {
            TailRead(take, tail, q, old(hw.clock), hw.clock);
            OneTail(takes, words, positions, old(hw.clock), at, tail, q, take, hw.clock);
            TakesOne(old(Page()), takes, take);
            takes := takes + [take];
            measured := measured + frames;
            more := frames == globals.period && measured <= 8 * globals.period;
          } else {
            LastTail(takes, words, positions, old(hw.clock), at, tail, [q], hw.clock);
          }
          words, positions := words + [tail], positions + [q];
        }
      }
    }

    lemma NoTailsYet()
      ensures TailsAre([], [], [], hw.clock, hw.clock) && FramesIn([]) == 0
    {}

    lemma TailRead(take: Books.Take, words: seq<int>, q: Answer<nat>, from: real, to: real)
      requires take.words == words && q == Ok(take.queued) && from <= take.before <= take.after <= to
      requires 0 < Books.Frames(globals, words) <= globals.period
      ensures TailIs(take, words, q, from, to)
    {}

    lemma TakesOne(p: Books.Page, takes: seq<Books.Take>, take: Books.Take)
      ensures Books.AfterTakes(globals, View(), p, takes + [take])
           == Books.AfterTake(globals, View(), Books.AfterTakes(globals, View(), p, takes), take)
    {
      assert (takes + [take])[..|takes|] == takes;
    }

    /** A closing stream: what the capture holds is measured, then the rest up to now charged, from where the drivers
        are, at `mid`, after the last tail. */
    method AccountClose() returns (ghost x: Closing)
      requires Valid()
      modifies `accountTo, `verifiedAt, `gains, `prunedTo, `known, `booked, speakers, hw`clock, hw`positions, hw`tails
      ensures Valid() && accountTo >= old(accountTo) && TimeKept() && hw.clock >= old(hw.clock)
      ensures accountTo >= old(hw.clock)
      ensures ClosedSo(x, old(hw.tails), old(hw.positions), old(hw.clock), stall.Some? && !unknown)
      ensures x.page == Books.AfterTakes(globals, View(), old(Page()), x.takes)
      ensures Page() == Books.AfterCharge(x.page, written, x.now) && Charged(x.mid, x.page.account, LeastNow())
    {
      hide Valid, Books.AfterTake, Books.AfterCharge, LeastNow, LeastSince, ChargedBy, SnapsNow, TailsTaken;
      ghost var takes: seq<Books.Take>, words: seq<seq<int>>, positions: seq<Answer<nat>> := [], [], [];
      NoTails(hw.clock, hw.clock);
      if stall.Some? && !unknown {
        takes, words, positions := ReadTails();
        TailsAll(takes, words, positions, old(hw.clock), hw.clock);
      }
      ghost var page, mid, at := Page(), SnapsNow(), hw.clock;
      var now := Clock();
      ChargeTo(now);
      TailsTakenIn(takes, words, positions, old(hw.clock), old(hw.clock), at, now, stall.Some? && !unknown);
      x := Closing(takes, words, positions, page, mid, now);
    }

    /** When, and from what the capture gave since. */
    ghost predicate ClosedSo(x: Closing, tails: seq<seq<int>>, positions: seq<Answer<nat>>, from: real, open: bool)
      reads hw`clock, hw`tails, hw`positions
    {
      && hw.tails == tails + x.words && hw.positions == positions + x.positions && from <= x.now <= hw.clock
      && TailsTaken(x.takes, x.words, x.positions, from, x.now, open)
    }

    method CoolTo(to: real)
      requires Valid() && to <= hw.clock && known - GAIN_RETAIN + KERNEL_LOCK_TIMEOUT <= to
      modifies `accountTo, `verifiedAt, `gains, `prunedTo, `known, `booked, speakers
      ensures Valid() && accountTo == Max(old(accountTo), to) && verifiedAt == to
      ensures TimeKept() && Page() == Books.AfterCool(old(Page()), to)
      ensures CooledFrom(old(SnapsNow()), old(accountTo), to)
    {
      hide Covers, Shaped, HeatNodes, Lawful, Consumed, Told, Kept, Bank.AllValid, Prune, Bank.SteppedTo, LockOk, AllFormed,
           Bank.AllGoverned;
      FixedIs();
      SnapsAre();
      Cool(to);
      forall i | 0 <= i < |speakers|
        ensures if to > old(accountTo)
                then Bank.SteppedTo(speakers[i], old(SnapsNow())[i], 0.0, 0.0, to - old(accountTo), globals.tAmbient)
                else speakers[i].Now() == old(SnapsNow())[i]
      {
        assert SteppedUpTo(i, 0.0, 0.0, to);
      }
      CooledTime(old(SnapsNow()), old(accountTo), to);
    }

    lemma CooledTime(was: seq<Snap>, from: real, to: real)
      requires CooledFrom(was, from, to)
      ensures forall i :: 0 <= i < |speakers| ==> speakers[i].heated == was[i].heated + (Max(from, to) - from)
    {}

    /** Closed at both looks, and no change event from the last look's to now. */
    predicate Vouched(changed: bool, late: bool)
      reads `closedSeen
    {
      hw.events && closedSeen && !changed && !late
    }

    /** A look at closed speakers, at `now`. `changed`: a change event came since the last look's. A stream that was
        playing is closed, its last frames measured and the rest charged; otherwise the speakers cool up to where an
        event in flight could still say otherwise, if the looks and the events vouch for it, and are charged if not. */
    method LookClosed(changed: bool) returns (ghost x: Closing)
      requires Valid()
      modifies `accountTo, `verifiedAt, `gains, `prunedTo, `known, `playing, `stall, `eventPending, `booked, speakers
      modifies hw`clock, hw`positions, hw`tails
      ensures Valid() && accountTo >= old(accountTo) && TimeKept() && !playing && old(hw.clock) <= x.now <= hw.clock
      ensures old(booked) <= booked && (old(playing) || !Vouched(changed, eventPending) ==> Warm(|old(booked)|))
      ensures old(playing) ==> accountTo >= old(hw.clock) && stall.None?
      ensures old(playing) ==>
        && ClosedSo(x, old(hw.tails), old(hw.positions), old(hw.clock), old(stall).Some? && !unknown)
        && x.page == Books.AfterTakes(globals, View(), old(Page()), x.takes)
        && Page() == Books.AfterCharge(x.page, written, x.now) && Charged(x.mid, x.page.account, LeastNow())
      ensures !old(playing) && !Vouched(changed, eventPending) ==>
        && accountTo >= old(hw.clock) && Charged(old(SnapsNow()), old(accountTo), old(LeastNow()))
        && Page() == Books.AfterCharge(old(Page()), written, x.now)
      ensures !old(playing) && Vouched(changed, eventPending) ==>
        && accountTo <= Max(old(accountTo), hw.clock - EVENT_SLACK)
        && Page() == Books.AfterCool(old(Page()), x.now - EVENT_SLACK)
        && CooledFrom(old(SnapsNow()), old(accountTo), x.now - EVENT_SLACK)
    {
      hide Valid, Charged, SnapsNow, LeastNow, LeastSince, Books.AfterTakes, Books.AfterCharge, Books.AfterCool, TailsTaken,
           CooledFrom, Warm, View, Vouched;
      if playing {
        x := CloseStream();
      } else {
        var now := LookIdle(changed);
        x := Closing([], [], [], Page(), [], now);
      }
    }

    /** A stream that was playing is closed. */
    method CloseStream() returns (ghost x: Closing)
      requires Valid()
      modifies `accountTo, `verifiedAt, `gains, `prunedTo, `known, `playing, `stall, `booked, speakers
      modifies hw`clock, hw`positions, hw`tails
      ensures Valid() && accountTo >= old(accountTo) && TimeKept() && !playing
      ensures old(hw.clock) <= x.now <= hw.clock && accountTo >= old(hw.clock) && stall.None?
      ensures old(booked) <= booked && Warm(|old(booked)|)
      ensures ClosedSo(x, old(hw.tails), old(hw.positions), old(hw.clock), old(stall).Some? && !unknown)
      ensures x.page == Books.AfterTakes(globals, View(), old(Page()), x.takes)
      ensures Page() == Books.AfterCharge(x.page, written, x.now) && Charged(x.mid, x.page.account, LeastNow())
    {
      hide Valid, ChargedBy, SnapsNow, LeastNow, LeastSince, Books.AfterTakes, TailsTaken, Warm, View, Books.AfterCharge, Charged;
      ghost var p := Page();
      x := AccountClose();
      ClosedWarm(p, x.takes, x.now);
      ChargedSays(x.mid, x.page.account, LeastNow());
      playing := false;
      Quiet();
      stall := None;
      ChargedSays(x.mid, x.page.account, LeastNow());
    }

    lemma ChargedSays(was: seq<Snap>, from: real, least: real)
      ensures Charged(was, from, least) <==> ChargedBy(SnapsNow(), was, least, accountTo - from)
    {
      hide ChargedBy;
    }

    /** No stream was playing: no power, or unknown. */
    method LookIdle(changed: bool) returns (now: real)
      requires Valid()
      modifies `accountTo, `verifiedAt, `gains, `prunedTo, `known, `eventPending, `booked, speakers, hw`clock
      ensures Valid() && accountTo >= old(accountTo) && TimeKept() && old(hw.clock) <= now <= hw.clock
      ensures old(booked) <= booked && (!Vouched(changed, eventPending) ==> Warm(|old(booked)|))
      ensures !Vouched(changed, eventPending) ==>
        && accountTo >= old(hw.clock) && Charged(old(SnapsNow()), old(accountTo), old(LeastNow()))
        && Page() == Books.AfterCharge(old(Page()), written, now)
      ensures Vouched(changed, eventPending) ==>
        && accountTo <= Max(old(accountTo), hw.clock - EVENT_SLACK)
        && Page() == Books.AfterCool(old(Page()), now - EVENT_SLACK)
        && CooledFrom(old(SnapsNow()), old(accountTo), now - EVENT_SLACK)
    {
      hide Valid, Charged, SnapsNow, LeastNow, LeastSince, Warm, CooledFrom, Books.AfterCool, Books.AfterCharge, View;
      now := Clock();
      LogIsPast();
      var late := Events();
      eventPending := late;
      if hw.events && closedSeen && !changed && !late {
        ghost var p := Page();
        CoolIfKnown(now - EVENT_SLACK);
        CooledKeeps(p, now - EVENT_SLACK);
      } else {
        ghost var p := Page();
        ChargeTo(now);
        ClosedWarm(p, [], now);
      }
    }

    /** Every driver stepped without power from the account's end at `from`, where it was at `was`, to `to`. */
    ghost predicate CooledFrom(was: seq<Snap>, from: real, to: real)
      reads speakers
    {
      && Fixed() && |was| == |speakers|
      && forall i :: 0 <= i < |speakers| ==>
           if to > from then Bank.SteppedTo(speakers[i], was[i], 0.0, 0.0, to - from, globals.tAmbient)
           else speakers[i].Now() == was[i]
    }

    lemma ClosedWarm(p: Books.Page, takes: seq<Books.Take>, now: real)
      requires Page() == Books.AfterCharge(Books.AfterTakes(globals, View(), p, takes), written, now)
      ensures p.booked <= booked && Warm(|p.booked|)
    {
      hide Books.AfterTake;
      Books.TakesKeep(globals, View(), p, takes);
    }

    /** None of the bookings from the `n`th on takes the speakers for silent. */
    ghost predicate Warm(n: nat)
      reads `booked
    {
      AllWarm(booked, n)
    }

    ghost predicate AllWarm(xs: seq<Books.Booking>, n: nat) {
      forall j :: n <= j < |xs| ==> !xs[j].Cooling?
    }

    method Quiet()
      requires Valid()
      modifies speakers
      ensures Valid() && forall i :: 0 <= i < |speakers| ==> speakers[i].heated == old(speakers[i].heated)
      ensures SnapsNow() == old(SnapsNow()) && forall i :: 0 <= i < |speakers| ==> speakers[i].pRecent == 0.0
    {
      hide LogOk, LockOk, Told, Kept, WereAt, Books.Chain, Lawful, AllFormed, Bank.AllGoverned;
      KeptSays();
      Bank.Silence(speakers, globals);
      assert SnapsNow() == old(SnapsNow());
      KeptFrom();
    }

    /** Closed at both looks and nothing changed between: no power, up to where an event in flight could
        still say otherwise. */
    method CoolIfKnown(to: real)
      requires Valid() && to <= hw.clock && known <= to + EVENT_SLACK
      modifies `accountTo, `verifiedAt, `gains, `prunedTo, `known, `booked, speakers
      ensures Valid() && accountTo == Max(old(accountTo), to) && TimeKept() && Page() == Books.AfterCool(old(Page()), to)
      ensures CooledFrom(old(SnapsNow()), old(accountTo), to)
    {
      hide Valid, Books.AfterCool;
      CoolTo(to);
    }

    lemma LogIsPast()
      requires Valid()
      ensures accountTo <= known <= hw.clock && (seenTo.Some? ==> seenTo.value <= hw.clock)
    {
      hide Covers, Shaped, Fixed, Consumed, Told, Kept, Bank.AllValid;
    }

    /** The sense capture opened, through one more decision while the lock is held: opening it blocks. */
    method OpenCapture() returns (r: Outcome, running: bool, ghost checkedAt: real)
      requires Valid()
      modifies `armed, `written, `requested, `gains, `known, `minFailures, `lastPing, `safeMismatch, `unlockedAt, `events
      modifies `invalidated, `marked, `lastSaveTry, `freshPeriods, `lastWrite, `targetFailures, `accountTo, `booked, speakers
      modifies `stall, hw`clock, hw`trace, hw`leased, hw`pings, hw`failed, hw`levels, hw`disk
      ensures r.Fine? ==> Valid() && OnlyLooked() && TimeKept() && hw.clock >= old(hw.clock) && hw.pings >= old(hw.pings)
      ensures r.Fine? ==> accountTo >= old(accountTo)
      ensures r.Fine? && old(stopping) ==> hw.pings == old(hw.pings)
      ensures r.Fine? && running ==> stall.Some?
      ensures r.Fine? && armed && hw.pings != old(hw.pings) ==> hw.leased <= checkedAt <= hw.clock && FreshEnough(checkedAt)
      ensures r.Fine? && armed && hw.pings == old(hw.pings) ==> old(armed) && lastPing == old(lastPing) && old(stall).Some?
      ensures hw.failed >= old(hw.failed) && (r.Fatal? ==> hw.failed > old(hw.failed))
      ensures r.Fine? ==> booked == old(booked) + Books.ChargeOf(old(accountTo), accountTo, old(LeastNow()))
      ensures old(stall).Some? ==> r.Fine? && running && Page() == old(Page()) && View() == old(View())
    {
      hide Valid, FreshEnough, Safe, Unseen, LeastNow;
      r, running, checkedAt := Fine, true, hw.clock;
      if stall.Some? { return; }
      if armed {
        r, checkedAt := Decide(true);
        if r.Fatal? { return; }
      }
      running := Open(rate);
      if running { stall := Some(None); }
    }

    /** The account may have moved on, and the capture opened or closed. */
    twostate predicate OnlyLooked()
      reads this
    {
      && accountTo >= old(accountTo) && stopping == old(stopping) && rate == old(rate) && playing == old(playing)
      && dt == old(dt) && seenTo == old(seenTo) && unknown == old(unknown)
    }

    /** One sense period, placed and measured, if it came whole and its position is known. */
    method ReadOne() returns (r: Outcome, ghost take: Option<Books.Take>, ghost heard: Said)
      requires Valid() && stall.Some?
      modifies `accountTo, `verifiedAt, `gains, `prunedTo, `known, `booked, `stall, `seenTo, `freshPeriods, speakers
      modifies hw`clock, hw`failed, hw`periods, hw`positions
      ensures Valid() && accountTo >= old(accountTo) && TimeKept() && hw.clock >= old(hw.clock)
      ensures freshPeriods in {0, old(freshPeriods), old(freshPeriods) + 1}
      ensures freshPeriods != old(freshPeriods) + 1 ==> accountTo == old(accountTo) && verifiedAt == old(verifiedAt)
      ensures freshPeriods == old(freshPeriods) + 1 ==> seenTo.Some? && old(hw.clock) <= seenTo.value <= hw.clock
      ensures freshPeriods != old(freshPeriods) + 1 ==> seenTo == old(seenTo)
      ensures take.Some? <==> freshPeriods == old(freshPeriods) + 1
      ensures PageRead(old(Page()), take)
      ensures take.Some? ==>
        old(hw.clock) <= take.value.before <= take.value.after <= hw.clock && seenTo == Some(take.value.before)
      ensures take.None? ==> SnapsNow() == old(SnapsNow())
      ensures SenseAfter(heard.period, take.Some?, old(stall), old(freshPeriods), old(hw.clock))
      ensures hw.periods == old(hw.periods) + [heard.period] && hw.positions == old(hw.positions) + heard.positions
      ensures ReadAs(heard, take)
      ensures hw.failed >= old(hw.failed) && (r.Fatal? ==> hw.failed > old(hw.failed))
    {
      hide Valid, SnapsNow, PageRead, ReadAs;
      var a := Period();
      r, take, heard := Fine, None, Said(a, []);
      Untaken(a);
      NoneRead();
      match a {
        case Broken => r := Fatal;
        case Transient => stall, freshPeriods := None, 0;
        case Ok(reading) =>
          match reading
          case Short => freshPeriods := 0;
          case Nothing =>
            var now := Clock();
            var since := if stall.value.Some? then stall.value.value else now;
            stall := Some(Some(since));
            if now - since >= STALL_TIMEOUT {
              stall, freshPeriods := None, 0;
            }
          case Whole(words) =>
            take, heard := TakePeriod(words);
      }
    }

    /** What a reading leaves of the capture's stall clock and of the periods seen in a row: a silence of STALL_TIMEOUT
        and an error worth retrying close it; but for a taken period and a short silence none are left. */
    ghost predicate SenseAfter(period: Answer<Reading>, taken: bool, was: Option<Option<real>>, seen: nat, from: real)
      reads `stall, `freshPeriods, hw`clock
    {
      match period {
        case Broken => stall == was && freshPeriods == seen
        case Transient => stall.None? && freshPeriods == 0
        case Ok(reading) =>
          match reading {
            case Short => stall == was && freshPeriods == 0
            case Whole(words) =>
              if taken then stall == Some(None) && freshPeriods == seen + 1 else stall == was && freshPeriods == 0
            case Nothing =>
              if was.Some? && was.value.Some? then Silent(was.value.value, was, seen, from)
              else stall.Some? && stall.value.Some? && from <= stall.value.value <= hw.clock && freshPeriods == seen
          }
      }
    }

    /** Silent since then: not long enough yet, or closed. */
    ghost predicate Silent(start: real, was: Option<Option<real>>, seen: nat, from: real)
      reads `stall, `freshPeriods, hw`clock
    {
      || (stall == was && freshPeriods == seen && from - start < STALL_TIMEOUT)
      || (stall.None? && freshPeriods == 0 && hw.clock - start >= STALL_TIMEOUT)
    }

    /** A whole period is placed and measured, or discarded. */
    method TakePeriod(words: seq<int>) returns (ghost take: Option<Books.Take>, ghost heard: Said)
      requires Valid() && stall.Some?
      modifies `accountTo, `verifiedAt, `gains, `prunedTo, `known, `booked, `stall, `seenTo, `freshPeriods, speakers
      modifies hw`clock, hw`positions
      ensures Valid() && accountTo >= old(accountTo) && TimeKept() && hw.clock >= old(hw.clock)
      ensures PageRead(old(Page()), take)
      ensures take.Some? ==>
        && freshPeriods == old(freshPeriods) + 1 && seenTo == Some(take.value.before)
        && old(hw.clock) <= take.value.before <= take.value.after <= hw.clock
      ensures take.None? ==>
        && freshPeriods == 0 && accountTo == old(accountTo) && verifiedAt == old(verifiedAt) && seenTo == old(seenTo)
        && SnapsNow() == old(SnapsNow())
      ensures stall == if take.Some? then Some(None) else old(stall)
      ensures heard.period == Ok(Whole(words)) && hw.positions == old(hw.positions) + heard.positions && ReadAs(heard, take)
    {
      hide Valid, SnapsNow, Books.AfterTake, PageRead, ReadAs, View;
      ghost var q, t;
      var before, placed;
      before, placed, q, t := PlaceRead(words);
      take, heard := None, Said(Ok(Whole(words)), [q]);
      if !placed {
        NotPlaced(words, q);
        NoneRead();
        freshPeriods := 0;
        return;
      }
      take := Some(t);
      Placed(words, q, t);
      TookRead(old(Page()), t);
      stall := Some(None);
      SeeTo(Some(before));
      freshPeriods := freshPeriods + 1;
    }

    lemma NotPlaced(words: seq<int>, q: Answer<nat>)
      requires !q.Ok?
      ensures ReadAs(Said(Ok(Whole(words)), [q]), None)
    {}

    lemma Placed(words: seq<int>, q: Answer<nat>, take: Books.Take)
      requires take.words == words && q == Ok(take.queued)
      ensures ReadAs(Said(Ok(Whole(words)), [q]), Some(take))
    {}

    lemma TookRead(p: Books.Page, take: Books.Take)
      requires Page() == Books.AfterTake(globals, View(), p, take)
      ensures PageRead(p, Some(take))
    {}

    lemma Untaken(a: Answer<Reading>)
      ensures !(a.Ok? && a.value.Whole?) ==> ReadAs(Said(a, []), None)
    {}

    /** The page as one reading, if there is one, leaves it. */
    ghost predicate PageRead(p: Books.Page, take: Option<Books.Take>)
      reads `accountTo, `verifiedAt, `gains, `booked, `rate, `lastPing, `written
    {
      Page() == if take.Some? then Books.AfterTake(globals, View(), p, take.value) else p
    }

    lemma NoneRead()
      ensures PageRead(Page(), None)
    {}

    /** A period is taken exactly if it came whole and its position could be read: its words and that position. */
    ghost predicate ReadAs(heard: Said, take: Option<Books.Take>) {
      if heard.period.Ok? && heard.period.value.Whole? then
        && |heard.positions| == 1
        && var q := heard.positions[0];
           if q.Ok? then take.Some? && take.value.words == heard.period.value.words && take.value.queued == q.value
           else take.None?
      else take.None?
    }

    /** Data was seen up to `t`. */
    method SeeTo(t: Option<real>)
      requires Valid() && (t.Some? ==> t.value <= hw.clock)
      modifies `seenTo
      ensures Valid() && seenTo == t
    {
      hide Covers, Shaped, Fixed, Consumed, Told, Kept, Bank.AllValid;
      seenTo := t;
    }

    /** A check of the model's freshness stands as the account and the data move on. */
    twostate lemma FreshStays(t: real)
      requires old(FreshEnough(t)) && accountTo >= old(accountTo) && dt == old(dt) && playing == old(playing)
      requires old(seenTo).Some? && seenTo != old(seenTo) ==> seenTo.Some? && seenTo.value >= old(seenTo).value
      requires old(seenTo).None? ==> seenTo.None?
      ensures FreshEnough(t)
    {}

    /** The read of a pass whose pings were checked at `t`. */
    method ReadFresh(ghost t: real) returns (r: Outcome, ghost take: Option<Books.Take>, ghost heard: Said)
      requires Valid() && stall.Some? && seenTo.Some? && seenTo.value <= hw.clock
      modifies `accountTo, `verifiedAt, `gains, `prunedTo, `known, `booked, `stall, `seenTo, `freshPeriods, speakers
      modifies hw`clock, hw`failed, hw`periods, hw`positions
      ensures Valid() && accountTo >= old(accountTo) && TimeKept() && hw.clock >= old(hw.clock)
      ensures old(FreshEnough(t)) ==> FreshEnough(t)
      ensures PageRead(old(Page()), take)
      ensures hw.periods == old(hw.periods) + [heard.period] && ReadAs(heard, take)
      ensures hw.failed >= old(hw.failed) && (r.Fatal? ==> hw.failed > old(hw.failed))
    {
      hide Valid, FreshEnough, PageRead, ReadAs, SnapsNow;
      r, take, heard := ReadOne();
      if old(FreshEnough(t)) { FreshStays(t); }
    }

    /** The bookings of a look's decisions: charges only. */
    ghost predicate AllCharges(xs: seq<Books.Booking>) {
      forall i :: 0 <= i < |xs| ==> xs[i].Charging?
    }

    /** A look at open speakers, at `look`. A stream first seen is charged; the capture, once it runs, is read once, and
        what was read measured on top of the page `p` so far. */
    method LookOpen(n: nat, look: real) returns (r: Outcome, ghost checkedAt: real, ghost p: Books.Page,
                                                 ghost take: Option<Books.Take>, ghost heard: Option<Said>)
      requires Valid() && n > 0 && look <= hw.clock
      modifies `armed, `written, `requested, `gains, `known, `minFailures, `lastPing, `safeMismatch, `unlockedAt, `events
      modifies `invalidated, `marked, `lastSaveTry, `freshPeriods, `lastWrite, `targetFailures, `accountTo, `booked, speakers
      modifies `dt, `rate, `playing, `closedSeen, `seenTo, `stall, `verifiedAt, `prunedTo
      modifies hw`clock, hw`trace, hw`leased, hw`pings, hw`failed, hw`levels, hw`disk, hw`periods, hw`positions
      ensures r.Fine? ==> Valid() && accountTo >= old(accountTo) && TimeKept()
      ensures r.Fine? && old(stopping) ==> hw.pings == old(hw.pings)
      ensures r.Fine? && armed && hw.pings != old(hw.pings) ==> hw.leased <= checkedAt <= hw.clock && FreshEnough(checkedAt)
      ensures r.Fine? ==> hw.clock >= old(hw.clock) && hw.pings >= old(hw.pings)
      ensures r.Fine? && armed && hw.pings == old(hw.pings) ==> old(armed) && lastPing == old(lastPing) && old(stall).Some?
      ensures hw.failed >= old(hw.failed) && (r.Fatal? ==> hw.failed > old(hw.failed))
      ensures r.Fine? ==> playing && rate == n && dt == Some(globals.period as real / n as real)
      ensures r.Fine? && !old(playing) ==> p.account >= old(hw.clock)
      ensures r.Fine? ==> PageRead(p, take) && old(booked) <= p.booked && AllCharges(p.booked[|old(booked)|..])
      ensures r.Fine? && old(stall).Some? ==>
        && written == old(written) && lastPing == old(lastPing)
        && p == if old(playing) then old(Page()) else Books.AfterCharge(old(Page()), old(written), p.account)
      ensures r.Fine? ==> ReadOnce(old(hw.periods), hw.periods, heard, take) && (old(stall).Some? ==> heard.Some?)
    {
      hide Valid, FreshEnough, LeastNow, PageRead, ReadAs, Books.AfterCharge, AllCharges, ReadOnce, View;
      var running;
      r, running, checkedAt := OpenStream(n, look);
      p, take, heard := Page(), None, None;
      if r.Fatal? { return; }
      NoneRead();
      NotRead(hw.periods);
      if !running { return; }
      LogIsPast();
      ghost var h;
      r, take, h := ReadFresh(checkedAt);
      heard := Some(h);
      ReadIt(old(hw.periods), hw.periods, h, take);
    }

    /** A stream is there, and its capture opened. */
    method OpenStream(n: nat, look: real) returns (r: Outcome, running: bool, ghost checkedAt: real)
      requires Valid() && n > 0 && look <= hw.clock
      modifies `armed, `written, `requested, `gains, `known, `minFailures, `lastPing, `safeMismatch, `unlockedAt, `events
      modifies `invalidated, `marked, `lastSaveTry, `freshPeriods, `lastWrite, `targetFailures, `accountTo, `booked, speakers
      modifies `dt, `rate, `playing, `closedSeen, `seenTo, `stall
      modifies hw`clock, hw`trace, hw`leased, hw`pings, hw`failed, hw`levels, hw`disk
      ensures r.Fine? ==> Valid() && accountTo >= old(accountTo) && TimeKept()
      ensures r.Fine? && old(stopping) ==> hw.pings == old(hw.pings)
      ensures r.Fine? && armed && hw.pings != old(hw.pings) ==> hw.leased <= checkedAt <= hw.clock && FreshEnough(checkedAt)
      ensures r.Fine? ==> hw.clock >= old(hw.clock) && hw.pings >= old(hw.pings)
      ensures r.Fine? && armed && hw.pings == old(hw.pings) ==> old(armed) && lastPing == old(lastPing) && old(stall).Some?
      ensures hw.failed >= old(hw.failed) && (r.Fatal? ==> hw.failed > old(hw.failed))
      ensures r.Fine? ==> playing && rate == n && dt == Some(globals.period as real / n as real) && seenTo.Some?
      ensures r.Fine? && !old(playing) ==> accountTo >= old(hw.clock)
      ensures r.Fine? ==> old(booked) <= booked && AllCharges(booked[|old(booked)|..])
      ensures r.Fine? && running ==> stall.Some?
      ensures r.Fine? && old(stall).Some? ==>
        && running && written == old(written) && lastPing == old(lastPing)
        && Page() == if old(playing) then old(Page()) else Books.AfterCharge(old(Page()), old(written), accountTo)
    {
      hide Valid, FreshEnough, LeastNow, Books.AfterCharge, AllCharges, Books.ChargeOf, Charged, SnapsNow;
      dt := Some(globals.period as real / n as real);
      rate := n;
      FirstSight(look);
      FirstCharge(old(Page()), old(playing), written);
      ghost var early, from, least := booked, accountTo, LeastNow();
      r, running, checkedAt := OpenCapture();
      if r.Fatal? { return; }
      ChargesAdd(old(booked), early, booked, from, accountTo, least);
    }

    lemma FirstCharge(p: Books.Page, played: bool, held: Held)
      requires Page() == if played then p else Books.AfterCharge(p, held, accountTo)
      ensures p.booked <= booked && AllCharges(booked[|p.booked|..])
    {}

    lemma ChargesAdd(xs: seq<Books.Booking>, ys: seq<Books.Booking>, zs: seq<Books.Booking>, from: real, to: real, least: real)
      requires xs <= ys && AllCharges(ys[|xs|..]) && zs == ys + Books.ChargeOf(from, to, least)
      ensures xs <= zs && AllCharges(zs[|xs|..])
    {
      assert zs[|xs|..] == ys[|xs|..] + Books.ChargeOf(from, to, least);
    }

    /** At most one period was read in the pass, and what came of it. */
    ghost predicate ReadOnce(was: seq<Answer<Reading>>, now: seq<Answer<Reading>>, heard: Option<Said>, take: Option<Books.Take>) {
      if heard.Some? then now == was + [heard.value.period] && ReadAs(heard.value, take) else now == was && take.None?
    }

    lemma NotRead(was: seq<Answer<Reading>>)
      ensures ReadOnce(was, was, None, None)
    {}

    lemma ReadIt(was: seq<Answer<Reading>>, now: seq<Answer<Reading>>, heard: Said, take: Option<Books.Take>)
      requires now == was + [heard.period] && ReadAs(heard, take)
      ensures ReadOnce(was, now, Some(heard), take)
    {}

    /** A stream seen for the first time may have played since the last look at closed speakers, all of
        which is charged. */
    method FirstSight(look: real)
      requires Valid() && look <= hw.clock
      modifies `accountTo, `known, `booked, `playing, `closedSeen, `seenTo, speakers, hw`clock
      ensures Valid() && accountTo >= old(accountTo) && TimeKept() && playing && seenTo.Some? && hw.clock >= old(hw.clock)
      ensures !old(playing) ==> accountTo >= old(hw.clock) && seenTo == Some(look)
      ensures !old(playing) ==> Charged(old(SnapsNow()), old(accountTo), old(LeastNow()))
      ensures Page() == if old(playing) then old(Page()) else Books.AfterCharge(old(Page()), written, accountTo)
    {
      hide Valid, Charged, SnapsNow, LeastSince;
      if !playing {
        var now := Clock();
        ChargeTo(now);
        playing, closedSeen := true, false;
        SeeTo(Some(look));
      }
      if seenTo.None? {
        LogIsPast();
        SeeTo(Some(accountTo));
      }
    }

    /** The playback state is unknown: everything since the account's end will be charged, and the card is
        handed off. */
    method LookFailed() returns (r: Outcome)
      requires Valid()
      modifies `armed, `gains, `known, `unknown, `closedSeen, `freshPeriods, `rateFailures, hw`clock, hw`failed
      ensures Valid() && !armed && unknown && hw.clock >= old(hw.clock) && !closedSeen && freshPeriods == 0
      ensures rateFailures == old(rateFailures) + 1
      ensures hw.failed == old(hw.failed) + if r.Fatal? then 1 else 0
    {
      hide Valid;
      rateFailures := rateFailures + 1;
      r := Disarm();
      closedSeen, freshPeriods := false, 0;
      NowUnknown();
    }

    method NowUnknown()
      requires Valid() && !armed
      modifies `unknown
      ensures Valid() && unknown
    {
      hide LogOk, Told, Kept, Fixed, Consumed, Bank.AllValid;
      unknown := true;
    }

    method LookSucceeded()
      requires Valid()
      modifies `unknown, `rateFailures
      ensures Valid() && !unknown && rateFailures == 0
    {
      hide LogOk, Told, Kept, Fixed, Consumed, Bank.AllValid;
      unknown, rateFailures := false, 0;
    }

    /** And a lock pinged in a pass cannot outlive the account by more than the data is allowed to be late, with the
        lease's length: the card takes its volume back by then. */
    lemma LeaseOutruns(checkedAt: real)
      requires hw.leased <= checkedAt && FreshEnough(checkedAt)
      ensures hw.leased + KERNEL_LOCK_TIMEOUT - accountTo
           <= (if dt.Some? then dt.value else 0.0) + BLIND_SLACK + KERNEL_LOCK_TIMEOUT
      ensures playing && dt.Some? && seenTo.Some? ==>
        hw.leased + KERNEL_LOCK_TIMEOUT - seenTo.value <= dt.value + BLIND_LIMIT + KERNEL_LOCK_TIMEOUT
    {}

    /** Whenever the guard holds the card after a pass, what is written covers every coil's window and keeps every
        driver's mean power, over the last second and the last minute, within its budget. */
    lemma WrittenKeepsBudgets(i: nat)
      requires Valid() && Safe() && armed && i < |speakers|
      ensures written.Held? && speakers[i].tPeak.Peak? && globals.tWindow > 0.0
      ensures speakers[i].InBudget(1.0, speakers[i].spec.pLimit1s, written.lo)
      ensures speakers[i].InBudget(60.0, speakers[i].spec.pLimit60s, written.lo)
      ensures written.lo >= ThermalDb(speakers[i].spec, globals, speakers[i].reducing, speakers[i].Hottest())
    {
      HeldSays(i);
      var x := speakers[i];
      hide Valid, Safe, Fixed, SpeakerState.InBudget, ThermalDb, Lawful, SpeakerState.Hottest;
      x.MoreKeepsBudget(1.0, x.spec.pLimit1s, x.reductionDb, written.lo);
      x.MoreKeepsBudget(60.0, x.spec.pLimit60s, x.reductionDb, written.lo);
    }

    lemma HeldSays(i: nat)
      requires Valid() && Safe() && armed && i < |speakers|
      ensures written.Held? && globals.tWindow > 0.0 && Lawful(c)
      ensures var x := speakers[i];
        x.tPeak.Peak? && x.c == c && x.Governed(globals) && 0.0 <= x.reductionDb <= written.lo
    {
      hide LogOk, LockOk, Told, FloorHolds, SpeakerState.Governed, SpeakerState.GoodHistory, Lawful;
    }

    /** What a pass read, as the take of one period. */
    function TakeOf(read: Books.Read): Option<Books.Take> {
      if read.Read? then Some(read.take) else None
    }

    /** What the look at the rate says. */
    method Look(look: real, changed: bool) returns (r: Outcome, ghost checkedAt: real, ghost read: Books.Read,
                                                    ghost heard: Option<Said>)
      requires Valid() && look <= hw.clock
      modifies this, hw, speakers
      ensures r.Fine? ==> Valid() && accountTo >= old(accountTo) && TimeKept() && stopping == old(stopping)
      ensures r.Fine? && old(stopping) ==> hw.pings == old(hw.pings)
      ensures r.Fine? && armed && hw.pings != old(hw.pings) ==> hw.leased <= checkedAt <= hw.clock && FreshEnough(checkedAt)
      ensures r.Fine? ==> hw.clock >= old(hw.clock) && hw.pings >= old(hw.pings)
      ensures r.Fine? && armed && hw.pings == old(hw.pings) ==> old(armed) && lastPing == old(lastPing)
      ensures hw.failed >= old(hw.failed) && (r.Fatal? ==> hw.failed > old(hw.failed))
      ensures r.Fine? && armed && !unknown && dt.Some? && hw.pings == old(hw.pings) ==> old(stall).Some?
      ensures r.Fine? ==> old(booked) <= booked && (Warm(|old(booked)|) || (!old(playing) && hw.events && old(closedSeen) && !changed))
      ensures r.Fine? && read.Read? ==>
        old(booked) <= read.p.booked && read.v == View() && Page() == Books.AfterRead(globals, read)
      ensures r.Fine? ==> ReadOnce(old(hw.periods), hw.periods, heard, TakeOf(read))
      ensures r.Fine? && !unknown && dt.Some? && old(stall).Some? ==> heard.Some?
      ensures r.Fine? && !unknown && dt.None? && old(playing) ==> accountTo >= old(hw.clock)
      ensures r.Fine? && old(stall).Some? ==> ReadOn(read, old(Page()), old(playing), old(View()))
    {
      hide Valid, FreshEnough, LeastNow, ReadOnce, Books.AfterTake, Warm, PageRead, AllCharges, Books.AfterCharge,
           Books.AfterRead, ReadOn;
      NotReadOn(old(Page()), old(playing), old(View()));
      checkedAt, read, heard := hw.clock, Books.NoRead, None;
      NotRead(hw.periods);
      NoneBooked();
      var a := RateNow();
      if a.Transient? && rateFailures < MAX_CONTROL_FAILURES {
        r := LookFailed();
        return;
      }
      if !a.Ok? || a.value < 0 || a.value > 0xffff_ffff {
        r := Fatal;
        return;
      }
      LookSucceeded();
      if a.value == 0 {
        SeenClosed(changed);
        r := Fine;
      } else {
        ghost var p, take;
        r, checkedAt, p, take, heard := LookOpen(a.value, look);
        if r.Fatal? { return; }
        OpenWarm(old(booked), p, take);
        if take.Some? { read := Books.Read(View(), p, take.value); }
        if old(stall).Some? { IsReadOn(read, old(Page()), old(playing), old(View())); }
      }
    }

    /** The speakers are closed. */
    method SeenClosed(changed: bool)
      requires Valid()
      modifies `accountTo, `verifiedAt, `gains, `prunedTo, `known, `playing, `stall, `eventPending, `booked, speakers
      modifies `dt, `freshPeriods, `closedSeen, `seenTo, hw`clock, hw`positions, hw`tails
      ensures Valid() && accountTo >= old(accountTo) && TimeKept() && hw.clock >= old(hw.clock)
      ensures !playing && closedSeen && dt.None? && freshPeriods == 0 && seenTo.None?
      ensures old(booked) <= booked && (Warm(|old(booked)|) || (!old(playing) && hw.events && old(closedSeen) && !changed))
      ensures old(playing) ==> accountTo >= old(hw.clock)
    {
      hide Valid, Charged, SnapsNow, LeastNow, Books.AfterTakes, Books.AfterCharge, Books.AfterCool, TailsTaken, CooledFrom, Warm;
      ghost var x := LookClosed(changed);
      dt, freshPeriods, closedSeen := None, 0, true;
      SeeTo(None);
    }

    /** With the capture running already, what was read was measured on the page as the pass found it, but for the charge
        of a stream first seen, and with the log, the controls' value and the lease as they were. */
    ghost predicate ReadOn(read: Books.Read, p: Books.Page, played: bool, v: Books.View) {
      read.Read? ==>
        && read.p == (if played then p else Books.AfterCharge(p, v.written, read.p.account))
        && read.v == v.(rate := read.v.rate)
    }

    lemma NotReadOn(p: Books.Page, played: bool, v: Books.View)
      ensures ReadOn(Books.NoRead, p, played, v)
    {}

    lemma IsReadOn(read: Books.Read, p: Books.Page, played: bool, v: Books.View)
      requires read.Read? ==>
        && read.p == (if played then p else Books.AfterCharge(p, v.written, read.p.account))
        && read.v.lapse == v.lapse && read.v.written == v.written && read.v.floor == v.floor
      ensures ReadOn(read, p, played, v)
    {}

    lemma NoneBooked()
      ensures Warm(|booked|)
    {}

    lemma CooledKeeps(p: Books.Page, to: real)
      requires Page() == Books.AfterCool(p, to)
      ensures p.booked <= booked
    {}

    /** What was measured and charged at open speakers takes nothing for silent. */
    lemma OpenWarm(xs: seq<Books.Booking>, p: Books.Page, take: Option<Books.Take>)
      requires xs <= p.booked && AllCharges(p.booked[|xs|..]) && PageRead(p, take)
      ensures xs <= booked && Warm(|xs|)
      ensures take.Some? ==> Page() == Books.AfterRead(globals, Books.Read(View(), p, take.value))
    {
      forall j | |xs| <= j < |p.booked| ensures p.booked[j].Charging? {
        assert p.booked[j] == p.booked[|xs|..][j - |xs|];
      }
      if take.Some? {
        Books.TakesKeep(globals, View(), p, [take.value]);
        assert [take.value][..0] == [];
        assert Books.AfterTakes(globals, View(), p, []) == p;
        hide Books.AfterTake;
        assert Books.AfterTakes(globals, View(), p, [take.value]) == Books.AfterTake(globals, View(), p, take.value);
      }
    }

    /** The look of a pass, with the events since the last one. */
    method LookNow() returns (r: Outcome, ghost checkedAt: real, ghost read: Books.Read, ghost heard: Option<Said>)
      requires Valid()
      modifies this, hw, speakers
      ensures r.Fine? ==> Valid() && accountTo >= old(accountTo) && TimeKept() && stopping == old(stopping)
      ensures r.Fine? && old(stopping) ==> hw.pings == old(hw.pings)
      ensures r.Fine? && armed && hw.pings != old(hw.pings) ==> hw.leased <= checkedAt <= hw.clock && FreshEnough(checkedAt)
      ensures r.Fine? ==> hw.clock >= old(hw.clock) && hw.pings >= old(hw.pings)
      ensures r.Fine? && armed && hw.pings == old(hw.pings) ==> old(armed) && lastPing == old(lastPing)
      ensures hw.failed >= old(hw.failed) && (r.Fatal? ==> hw.failed > old(hw.failed))
      ensures r.Fine? && armed && !unknown && dt.Some? && hw.pings == old(hw.pings) ==> old(stall).Some?
      ensures r.Fine? ==> old(booked) <= booked
      ensures r.Fine? ==> Warm(|old(booked)|) || (!old(playing) && hw.events && old(closedSeen) && !old(eventPending))
      ensures r.Fine? && read.Read? ==>
        old(booked) <= read.p.booked && read.v == View() && Page() == Books.AfterRead(globals, read)
      ensures r.Fine? ==> ReadOnce(old(hw.periods), hw.periods, heard, TakeOf(read))
      ensures r.Fine? && !unknown && dt.Some? && old(stall).Some? ==> heard.Some?
      ensures r.Fine? && !unknown && dt.None? && old(playing) ==> accountTo >= old(hw.clock)
      ensures r.Fine? && old(stall).Some? ==> ReadOn(read, old(Page()), old(playing), old(View()))
    {
      hide Valid, FreshEnough, ReadOnce, Books.AfterRead, Warm, ReadOn, View;
      var look := Clock();
      var changed := eventPending;
      eventPending := false;
      var event := Events();
      r, checkedAt, read, heard := Look(look, changed || event);
    }

    /** One pass of the loop: a look, idle accounting or one sense period, and the decision. Every driver's
        thermal time moves exactly as the account does; every ping of the pass was followed by a check that
        the model was current; and if the guard still holds the card the model and the controls allow it, and it
        was pinged in the pass or not long before. What was read was measured, on top of what was booked so far; and
        only a call that failed is fatal. */
    method Tick() returns (r: Outcome, ghost checkedAt: real, ghost read: Books.Read, ghost heard: Option<Said>)
      requires Valid()
      modifies this, hw, speakers
      ensures r.Fine? ==> Valid() && Safe() && TimeKept() && accountTo >= old(accountTo) && stopping == old(stopping)
      ensures r.Fine? && old(stopping) ==> hw.pings == old(hw.pings)
      ensures r.Fine? && armed && hw.pings != old(hw.pings) ==> hw.leased <= checkedAt <= hw.clock && FreshEnough(checkedAt)
      ensures r.Fine? && armed && hw.pings == old(hw.pings) ==>
        old(armed) && lastPing == old(lastPing) && Recent(false, old(hw.clock), old(lastPing))
      ensures r.Fine? && armed ==> old(hw.clock) - lastWrite < PING_INTERVAL
      ensures r.Fine? && armed && !unknown && dt.Some? && hw.pings == old(hw.pings) ==> old(stall).Some?
      ensures r.Fatal? ==> hw.failed > old(hw.failed)
      ensures r.Fine? && setup.state.Some? ==> lastSaveTry.Some? && old(hw.clock) - lastSaveTry.value < SAVE_INTERVAL
      ensures r.Fine? ==>
        && old(booked) <= booked && booked != [] && booked[|booked| - 1].Clearing?
        && (Warm(|old(booked)|) || (!old(playing) && hw.events && old(closedSeen) && !old(eventPending)))
      ensures r.Fine? && read.Read? ==>
        && old(booked) <= read.p.booked && Books.AfterRead(globals, read).booked <= booked
        && read.v.rate == rate && read.v.floor == unknownFloor
      ensures r.Fine? ==> ReadOnce(old(hw.periods), hw.periods, heard, TakeOf(read))
      ensures r.Fine? && !unknown && dt.Some? && old(stall).Some? ==> heard.Some?
      ensures r.Fine? && !unknown && dt.None? && old(playing) ==> accountTo >= old(hw.clock)
      ensures r.Fine? && old(stall).Some? ==> ReadOn(read, old(Page()), old(playing), old(View()))
    {
      hide Valid, Safe, FreshEnough, LeastNow, LeastSince, ReadOnce, Books.AfterRead, Unseen, ChargedOnly, Recent, AllWarm, ReadOn;
      r, checkedAt, read, heard := LookNow();
      if r.Fatal? { return; }
      label L:
      ghost var again, early, from, least, at := 0.0, booked, accountTo, LeastNow(), hw.clock;
      r, again := Decide(false);
      if r.Fatal? { return; }
      DecidedWarm(old(booked), early, from, least);
      RecentSooner(false, old(hw.clock), at, old(lastPing));
      if armed && hw.pings != old(hw.pings) {
        if hw.pings == old@L(hw.pings) {
          FreshStays@L(checkedAt);
        } else {
          checkedAt := again;
        }
      }
    }

    lemma DecidedWarm(xs: seq<Books.Booking>, ys: seq<Books.Booking>, from: real, least: real)
      requires xs <= ys && ChargedOnly(ys, from, least, true)
      ensures ys <= booked && booked != [] && booked[|booked| - 1].Clearing?
      ensures AllWarm(ys, |xs|) ==> AllWarm(booked, |xs|)
    {
      var zs := ys + Books.ChargeOf(from, accountTo, least);
      forall j | 0 <= j < |ys| ensures booked[j] == ys[j] {
        assert booked[..|zs|][j] == zs[j];
      }
      forall j | |ys| <= j < |booked| ensures !booked[j].Cooling? {
        if j < |zs| { assert booked[..|zs|][j] == zs[j]; }
      }
    }

    // ---- stopping -----------------------------------------------------------------------------------------

    /** Stop renewing the lock for good: give the card's lock up. */
    method Stop() returns (r: Outcome)
      requires Valid()
      modifies `armed, `stopping, `relinquishedAt, `gains, `known, `events, hw`clock, hw`failed
      ensures hw.failed == old(hw.failed) + if r.Fatal? then 1 else 0
      ensures Valid() && stopping && !armed && hw.pings == old(hw.pings)
      ensures r.Fine? ==> relinquishedAt == Some(hw.clock)
    {
      hide Valid, Note;
      GiveUp();
      StopNow();
      r := LetGo();
      if r.Fine? { Relinquished(); }
    }

    method Relinquished()
      requires Valid() && stopping
      modifies `relinquishedAt, hw`clock
      ensures Valid() && relinquishedAt == Some(hw.clock) && hw.clock >= old(hw.clock)
    {
      hide LogOk, Told, Kept, Fixed, Consumed, Bank.AllValid;
      var now := Clock();
      relinquishedAt := Some(now);
    }

    method StopNow()
      requires Valid() && !armed
      modifies `stopping, `events
      ensures Valid() && stopping
    {
      hide Sound, Kept, Restart.Next, Restart.Run;
      StopNext(Lived());
      StopOnly();
      Tell(Event.Stop);
    }

    method StopOnly()
      requires Sound() && !armed
      modifies `stopping
      ensures Sound() && stopping
    {
      hide LogOk, Fixed, Consumed, Bank.AllValid;
      stopping := true;
    }

    /** Whether DRAIN has passed since a stop gave the lock up. */
    method Released() returns (yes: bool)
      requires Valid()
      modifies hw`clock
      ensures Valid() && (yes ==> !armed && relinquishedAt.Some? && hw.clock >= relinquishedAt.value + DRAIN)
    {
      hide Valid;
      var now := Clock();
      yes := !armed && relinquishedAt.Some? && now >= relinquishedAt.value + DRAIN;
    }

    /** The end of a clean stop. What lies between the boot clock's two readings is counted twice, so that the
        file is never cooler than the speakers; the record for the next boot follows it, and may fail. The run
        is then over for the restarts' model too. */
    method FinalSave() returns (r: Outcome, ghost more: real)
      requires Valid()
      modifies `accountTo, `known, `booked, `lastSaveTry, `events, speakers, hw`clock, hw`disk
      ensures r.Fine? ==> !armed && relinquishedAt.Some? && hw.clock >= relinquishedAt.value + DRAIN
      ensures r.Fine? && setup.state.Some? ==> Resumable(hw.disk.state) && hw.disk.state.pings == hw.pings
      ensures r.Fine? ==> Ended()
      ensures r.Fine? ==> hw.disk.record == old(hw.disk.record) || (setup.record.Some? && hw.disk.record == hw.RecordNow(true))
      ensures r.Fine? ==> accountTo >= old(accountTo) && accountTo >= relinquishedAt.value + DRAIN
      ensures r.Fine? ==> more >= 0.0 && forall i :: 0 <= i < |speakers| ==>
        speakers[i].heated == old(speakers[i].heated) + (accountTo - old(accountTo)) + more
      ensures r.Fine? ==> Kept()
      ensures r.Fine? ==>
        booked == old(booked) + Books.ChargeOf(old(accountTo), accountTo, old(LeastNow()))
                  + (if more > 0.0 then [Books.Pairing(more)] else [])
    {
      hide Valid, Ended, Resumable, Kept, LeastSince;
      more := 0.0;
      var yes := Released();
      if !yes { return Fatal, more; }
      var now := Clock();
      ChargeTo(now);
      var pairing: real := *;
      if pairing > 0.0 {
        ChargePairing(pairing);
        more := pairing;
      }
      KeepsBooks();
      var ok := SaveReleased(now);
      r := if ok then Fine else Fatal;
    }

    lemma KeepsBooks()
      requires Valid()
      ensures Kept()
    {}

    /** The run is over, and the restarts' model has its files. */
    ghost predicate Ended()
      reads `birth, `events, hw`disk, hw`pings
    {
      Lived().life.Dead? && Seen(Lived().files, setup) == hw.disk && Lived().pings == hw.pings
    }

    method SaveReleased(now: real) returns (ok: bool)
      requires Valid() && relinquishedAt.Some?
      modifies `lastSaveTry, `events, hw`clock, hw`disk
      ensures hw.clock >= old(hw.clock)
      ensures ok && setup.state.Some? ==> Resumable(hw.disk.state) && hw.disk.state.pings == hw.pings
      ensures Ended()
      ensures hw.disk.record == old(hw.disk.record) || (setup.record.Some? && hw.disk.record == hw.RecordNow(true))
    {
      LogReads();
      hide Sound, Kept, Restart.Next, Restart.Run;
      ok := true;
      ghost var outcome, kept := Done, Failed;
      if setup.state.Some? {
        lastSaveTry := Some(now);
        ok, outcome := WriteReleased();
      }
      if ok && setup.record.Some? {
        kept := WriteForNextBoot();
      }
      FinalNext(Lived(), outcome, kept);
      Tell(Event.FinalSave(outcome, kept));
    }

    method WriteForNextBoot() returns (ghost outcome: FileOutcome)
      requires hw.Valid()
      modifies hw`clock, hw`disk
      ensures hw.clock >= old(hw.clock)
      ensures hw.disk == old(hw.disk).(record := Restart.Left(outcome, old(hw.disk.record), hw.RecordNow(true)))
    {
      ghost var was := hw.disk;
      var ok := hw.WriteRecord(true);
      outcome := if ok then Done else if hw.disk.record == was.record then Failed else Landed;
    }

    method WriteReleased() returns (ok: bool, ghost outcome: FileOutcome)
      requires hw.Valid()
      modifies hw`clock, hw`disk
      ensures hw.clock >= old(hw.clock) && (ok <==> outcome == Done)
      ensures hw.disk == old(hw.disk).(state := Restart.Left(outcome, old(hw.disk.state), Snapshot(true, true, hw.pings)))
    {
      ghost var was := hw.disk;
      ok := hw.WriteState(true, true);
      outcome := if ok then Done else if hw.disk.state == was.state then Failed else Landed;
    }

    lemma LogReads()
      requires Valid()
      ensures hw.Valid() && (relinquishedAt.Some? ==> stopping)
    {
      hide Covers, Shaped, Fixed, Told, Kept, Bank.AllValid;
    }

    /** Full scale at full gain for the time the two readings left open. */
    method ChargePairing(pairing: real)
      requires Valid() && pairing > 0.0
      modifies `booked, speakers
      ensures Valid() && forall i :: 0 <= i < |speakers| ==> speakers[i].heated == old(speakers[i].heated) + pairing
      ensures booked == old(booked) + [Books.Pairing(pairing)]
    {
      hide LogOk, LockOk, Told, Kept, HeatNodes, HeatPeak, Inversion.FullScale, Bank.AllValid, Lawful, Budget.Record, WereAt, AllFormed, Bank.AllGoverned;
      FixedIs();
      KeptSays();
      ghost var was, x := SnapsNow(), Books.Pairing(pairing);
      Bank.ChargeFull(speakers, c, pairing, globals);
      assert TookAll(was, x);
      StepsKept(was, x, accountTo);
      Enter(x);
    }

    /** The daemon's loop (src/main.rs): passes until a signal, then passes until the card is released, then
        the final save. Over the whole of it thermal time moves exactly as the account does, but for what the
        final save's two clock readings leave open, charged on top; and after the stop nothing is pinged: the
        state saved is newer than every ping. */
    method Serve(passes: nat) returns (r: Outcome, saved: bool, ghost more: real)
      requires Valid() && !stopping
      modifies this, hw, speakers
      ensures r.Fine? && !saved ==> Valid() && TimeKept() && accountTo >= old(accountTo)
      ensures saved ==> stopping && !armed && accountTo >= old(accountTo)
      ensures saved && setup.state.Some? ==> Resumable(hw.disk.state) && hw.disk.state.pings == hw.pings
      ensures saved ==> more >= 0.0 && forall i :: 0 <= i < |speakers| ==>
        speakers[i].heated == old(speakers[i].heated) + (accountTo - old(accountTo)) + more
    {
      hide Valid, Safe, Consumed;
      r, saved, more := Fine, false, 0.0;
      for n := 0 to passes
        invariant r.Fine? && !saved && Valid() && TimeKept() && accountTo >= old(accountTo)
      {
        var signal: bool := *;
        if signal && !stopping {
          r := Stop();
          if r.Fatal? { return; }
        }
        if stopping {
          var yes := Released();
          if yes {
            r, more := FinalSave();
            saved := r.Fine?;
            return;
          }
        }
        ghost var checkedAt, read, heard;
        r, checkedAt, read, heard := Tick();
        if r.Fatal? { return; }
      }
    }
  }
}
