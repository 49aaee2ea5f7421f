/** Restarts (src/guard.rs `start_persist`, `invalidate`, `stop`, `final_save`; src/state.rs
    `restore`): the daemon's lives over the files they leave, with a crash possible between any
    two file operations. */
module Restart {
  import opened Codec
  import opened Options
  import opened Marker

  /** The state file. `released` and `whole` (the model covered up to the write) are what a
      restart looks at. `pings` is not in the file: how often the card had been pinged, by any
      run, when it was written. */
  datatype StateFile = NoState | Garbage | Snapshot(released: bool, whole: bool, pings: nat)

  /** The record for the next boot: a clean stop's or a running checkpoint's. `pings` and `life`
      are not in the file: when and by which run it was written. */
  datatype RecordFile = NoRecord | BadRecord | Saved(bootId: Option<string>, clean: bool, pings: nat, life: nat)

  /** A state file: its directory and its name there. Two spellings of one file are one path. */
  datatype StatePath = StatePath(dir: string, name: string)

  /** How a life was configured: its state path and its record path, if any. */
  datatype Setup = Setup(state: Option<StatePath>, record: Option<string>) {
    predicate HasBoth() {
      state.Some? && record.Some?
    }

    /** Both put the marker at the same place: it lies beside the state file's directory, named after it. */
    predicate SharesMarker(other: Setup) {
      HasBoth() && other.HasBoth() && state.value.dir == other.state.value.dir
    }
  }

  /** What lies at the paths of one setup; the marker is the text in it, if it is there. */
  datatype Disk = Disk(state: StateFile, marker: Option<string>, record: RecordFile)

  /** Everything that lies anywhere; a marker by the directory of the states it stands for. */
  datatype Files = Files(states: map<StatePath, StateFile>, markers: map<string, string>, records: map<string, RecordFile>)

  /** A file operation succeeds, fails, or reports a failure after it took effect. */
  datatype FileOutcome = Done | Failed | Landed

  /** Which operation of `invalidate` is next. */
  datatype Stage = Idle | Mark | RemoveRecord | WriteStatus | RemoveState

  datatype Life = Dead | Alive(setup: Setup, stage: Stage, marked: bool, invalidated: bool, stopping: bool)

  /** `lives` counts the starts, `pings` the pings of all of them, `before` those of earlier
      boots; `pinger` is the last run to ping. */
  datatype World = World(files: Files, bootId: Option<string>, life: Life, lives: nat, pings: nat, before: nat, pinger: nat)

  datatype Start = Resumed | Latched | FromEvidence

  /** What goes wrong with a start's reads, and whether anything overrode the card's safe level. */
  datatype Faults = Faults(stateFails: bool, markerFails: bool, overridden: bool, recordFails: bool)

  datatype Event =
    | Begin(setup: Setup, faults: Faults)
    | Retry
    | Invalidate(outcome: FileOutcome, whole: bool)
    | Ping
    | Save(outcome: FileOutcome, whole: bool)
    | Checkpoint(outcome: FileOutcome)
    | Stop
    | FinalSave(state: FileOutcome, record: FileOutcome)
    | Die
    | LoseState(path: StatePath)
    | DamageState(path: StatePath)
    | LoseRecord(at: string)
    | DamageRecord(at: string)
    | Reboot(bootId: Option<string>, cleared: set<string>)

  // ---- the files --------------------------------------------------------------------------------

  function StateAt(f: Files, path: StatePath): StateFile {
    if path in f.states then f.states[path] else NoState
  }

  function MarkerAt(f: Files, dir: string): Option<string> {
    if dir in f.markers then Some(f.markers[dir]) else None
  }

  function RecordAt(f: Files, at: string): RecordFile {
    if at in f.records then f.records[at] else NoRecord
  }

  /** What a run of this setup finds at its paths. */
  function Seen(f: Files, s: Setup): Disk {
    Disk(if s.state.Some? then StateAt(f, s.state.value) else NoState,
         if s.state.Some? then MarkerAt(f, s.state.value.dir) else None,
         if s.record.Some? then RecordAt(f, s.record.value) else NoRecord)
  }

  function WithState(f: Files, s: Setup, x: StateFile): Files {
    if s.state.Some? then f.(states := f.states[s.state.value := x]) else f
  }

  function WithMarker(f: Files, s: Setup, x: Option<string>): Files {
    if s.state.Some? && x.Some? then f.(markers := f.markers[s.state.value.dir := x.value]) else f
  }

  function WithRecord(f: Files, s: Setup, x: RecordFile): Files {
    if s.record.Some? then f.(records := f.records[s.record.value := x]) else f
  }

  /** Nothing changed but at the paths of this setup, its marker only with both. */
  ghost predicate Elsewhere(f: Files, g: Files, s: Setup) {
    && (forall p: StatePath :: s.state != Some(p) ==> StateAt(g, p) == StateAt(f, p))
    && (forall dir: string :: !(s.HasBoth() && s.state.value.dir == dir) ==> MarkerAt(g, dir) == MarkerAt(f, dir))
    && (forall at: string :: s.record != Some(at) ==> RecordAt(g, at) == RecordAt(f, at))
  }

  /** A boot with these directories empty. */
  function Cleared(f: Files, dirs: set<string>): Files {
    f.(states := map p | p in f.states && p.dir !in dirs :: f.states[p],
       markers := map dir | dir in f.markers && dir !in dirs :: f.markers[dir])
  }

  // ---- the steps --------------------------------------------------------------------------------

  predicate Resumable(f: StateFile) {
    f.Snapshot? && f.released && f.whole
  }

  /** What a start makes of the files it finds. */
  function StartKind(w: World, setup: Setup, faults: Faults): Start {
    var d := Seen(w.files, setup);
    if setup.state.None? || faults.stateFails then Latched
    else if Resumable(d.state) then Resumed
    else if d.state != NoState || setup.record.None? then Latched
    else if faults.markerFails || MarkerRefuses(d.marker, w.bootId) || faults.overridden then Latched
    else if !faults.recordFails && OfThisBoot(d.record, w.bootId) then Latched
    else FromEvidence
  }

  predicate OfThisBoot(r: RecordFile, bootId: Option<string>) {
    r.Saved? && r.bootId.Some? && r.bootId == bootId
  }

  function Left<T>(outcome: FileOutcome, before: T, after: T): T {
    if outcome == Failed then before else after
  }

  function RecordNow(w: World, clean: bool): RecordFile {
    Saved(Id(Word(w.bootId)), clean, w.pings, w.lives)
  }

  /** One operation of `invalidate`, in its order: the marker, the record, the status, and without
      a record path the state file's removal. A failure leaves the run not invalidated. */
  function InvalidateStep(w: World, outcome: FileOutcome, whole: bool): World
    requires w.life.Alive?
  {
    var l, f := w.life, w.files;
    var d := Seen(f, l.setup);
    match l.stage
    case Idle => w
    case Mark =>
      if !l.setup.HasBoth() || l.marked then w.(life := l.(stage := RemoveRecord))
      else w.(files := WithMarker(f, l.setup, Left(outcome, d.marker, Some(MarkerText(w.bootId)))),
              life := l.(marked := outcome == Done, stage := if outcome == Done then RemoveRecord else Idle))
    case RemoveRecord =>
      if l.setup.record.None? then w.(life := l.(stage := WriteStatus))
      else w.(files := WithRecord(f, l.setup, Left(outcome, d.record, NoRecord)),
              life := l.(stage := if outcome == Done then WriteStatus else Idle))
    case WriteStatus =>
      if l.setup.state.None? then w.(life := l.(stage := Idle, invalidated := true))
      else w.(files := WithState(f, l.setup, Left(outcome, d.state, Snapshot(false, whole, w.pings))),
              life := l.(invalidated := outcome == Done,
                         stage := if outcome != Done && l.setup.record.None? then RemoveState else Idle))
    case RemoveState =>
      w.(files := WithState(f, l.setup, Left(outcome, d.state, NoState)),
         life := l.(stage := Idle, invalidated := outcome == Done))
  }

  /** The last writes of a clean stop: the state, and if that is there or none is kept the record. */
  function FinalFiles(w: World, s: Setup, state: FileOutcome, record: FileOutcome): Files {
    var d := Seen(w.files, s);
    var f := WithState(w.files, s, Left(state, d.state, Snapshot(true, true, w.pings)));
    if s.state.Some? && state != Done then f
    else WithRecord(f, s, Left(record, d.record, RecordNow(w, true)))
  }

  /** What happens; an event whose turn it is not changes nothing. */
  function Next(w: World, e: Event): World {
    var l, f := w.life, w.files;
    match e
    case Begin(setup, faults) =>
      if l.Alive? then w else w.(life := Alive(setup, Mark, false, false, false), lives := w.lives + 1)
    case Retry =>
      if l.Alive? && l.stage == Idle && !l.invalidated && !l.stopping then w.(life := l.(stage := Mark)) else w
    case Invalidate(outcome, whole) =>
      if l.Alive? then InvalidateStep(w, outcome, whole) else w
    case Ping =>
      if l.Alive? && l.stage == Idle && l.invalidated && !l.stopping then w.(pings := w.pings + 1, pinger := w.lives) else w
    case Save(outcome, whole) =>
      if l.Alive? && l.stage == Idle && l.setup.state.Some?
      then w.(files := WithState(f, l.setup, Left(outcome, Seen(f, l.setup).state, Snapshot(false, whole, w.pings)))) else w
    case Checkpoint(outcome) =>
      if l.Alive? && l.invalidated && l.setup.record.Some?
      then w.(files := WithRecord(f, l.setup, Left(outcome, Seen(f, l.setup).record, RecordNow(w, false)))) else w
    case Stop =>
      if l.Alive? && l.stage == Idle then w.(life := l.(stopping := true)) else w
    case FinalSave(state, record) =>
      if l.Alive? && l.stage == Idle && l.stopping
      then w.(life := Dead, files := FinalFiles(w, l.setup, state, record)) else w
    case Die => w.(life := Dead)
    case LoseState(path) => w.(files := f.(states := f.states - {path}))
    case DamageState(path) => w.(files := f.(states := f.states[path := Garbage]))
    case LoseRecord(at) => w.(files := f.(records := f.records - {at}))
    case DamageRecord(at) => w.(files := f.(records := f.records[at := BadRecord]))
    case Reboot(bootId, cleared) =>
      w.(bootId := bootId, life := Dead, before := w.pings, files := Cleared(f, cleared))
  }

  function Run(w: World, es: seq<Event>): World {
    if es == [] then w else Next(Run(w, es[..|es| - 1]), es[|es| - 1])
  }

  // ---- single steps, as a run takes them --------------------------------------------------------

  /** The same boot, run and pings. */
  predicate SameRun(w: World, v: World) {
    v.bootId == w.bootId && v.lives == w.lives && v.pings == w.pings && v.before == w.before && v.pinger == w.pinger
  }

  lemma BeginNext(w: World, setup: Setup, faults: Faults)
    requires w.life.Dead?
    ensures Next(w, Begin(setup, faults)) == w.(life := Alive(setup, Mark, false, false, false), lives := w.lives + 1)
  {}

  lemma MarkNext(w: World, outcome: FileOutcome, whole: bool)
    requires w.life.Alive? && w.life.stage == Mark
    ensures var l, d, v := w.life, Seen(w.files, w.life.setup), Next(w, Invalidate(outcome, whole));
      && SameRun(w, v) && Elsewhere(w.files, v.files, l.setup)
      && if l.setup.HasBoth() && !l.marked
         then Seen(v.files, l.setup) == d.(marker := Left(outcome, d.marker, Some(MarkerText(w.bootId))))
              && v.life == l.(marked := outcome == Done, stage := if outcome == Done then RemoveRecord else Idle)
         else Seen(v.files, l.setup) == d && v.life == l.(stage := RemoveRecord)
  {}

  lemma RecordNext(w: World, outcome: FileOutcome, whole: bool)
    requires w.life.Alive? && w.life.stage == RemoveRecord
    ensures var l, d, v := w.life, Seen(w.files, w.life.setup), Next(w, Invalidate(outcome, whole));
      && SameRun(w, v) && Elsewhere(w.files, v.files, l.setup)
      && if l.setup.record.Some?
         then Seen(v.files, l.setup) == d.(record := Left(outcome, d.record, NoRecord))
              && v.life == l.(stage := if outcome == Done then WriteStatus else Idle)
         else Seen(v.files, l.setup) == d && v.life == l.(stage := WriteStatus)
  {}

  lemma StatusNext(w: World, outcome: FileOutcome, whole: bool)
    requires w.life.Alive? && w.life.stage == WriteStatus
    ensures var l, d, v := w.life, Seen(w.files, w.life.setup), Next(w, Invalidate(outcome, whole));
      && SameRun(w, v) && Elsewhere(w.files, v.files, l.setup)
      && if l.setup.state.Some?
         then Seen(v.files, l.setup) == d.(state := Left(outcome, d.state, Snapshot(false, whole, w.pings)))
              && v.life == l.(invalidated := outcome == Done,
                              stage := if outcome != Done && l.setup.record.None? then RemoveState else Idle)
         else Seen(v.files, l.setup) == d && v.life == l.(stage := Idle, invalidated := true)
  {}

  lemma StateNext(w: World, outcome: FileOutcome, whole: bool)
    requires w.life.Alive? && w.life.stage == RemoveState
    ensures var l, d, v := w.life, Seen(w.files, w.life.setup), Next(w, Invalidate(outcome, whole));
      && SameRun(w, v) && v.life == l.(stage := Idle, invalidated := outcome == Done)
      && Seen(v.files, l.setup) == d.(state := Left(outcome, d.state, NoState))
  {}

  lemma SaveNext(w: World, outcome: FileOutcome, whole: bool)
    requires w.life.Alive? && w.life.stage == Idle && w.life.setup.state.Some?
    ensures var l, d, v := w.life, Seen(w.files, w.life.setup), Next(w, Save(outcome, whole));
      && SameRun(w, v) && v.life == l
      && Seen(v.files, l.setup) == d.(state := Left(outcome, d.state, Snapshot(false, whole, w.pings)))
  {}

  lemma PingNext(w: World)
    requires w.life.Alive? && w.life.stage == Idle && w.life.invalidated && !w.life.stopping
    ensures Next(w, Ping) == w.(pings := w.pings + 1, pinger := w.lives)
  {}

  lemma DieNext(w: World)
    ensures Next(w, Die) == w.(life := Dead)
  {}

  lemma StopNext(w: World)
    requires w.life.Alive? && w.life.stage == Idle
    ensures Next(w, Stop) == w.(life := w.life.(stopping := true))
  {}

  lemma FinalNext(w: World, state: FileOutcome, record: FileOutcome)
    requires w.life.Alive? && w.life.stage == Idle && w.life.stopping
    ensures var l, d, v := w.life, Seen(w.files, w.life.setup), Next(w, FinalSave(state, record));
      && SameRun(w, v) && v.life == Dead && Elsewhere(w.files, v.files, l.setup)
      && Seen(v.files, l.setup)
         == Disk(if l.setup.state.Some? then Left(state, d.state, Snapshot(true, true, w.pings)) else d.state, d.marker,
                 if l.setup.record.Some? && (l.setup.state.Some? ==> state == Done)
                 then Left(record, d.record, RecordNow(w, true)) else d.record)
  {}

  /** Any files an unpinged card may be found with. */
  predicate Initial(w: World) {
    && w.life.Dead? && w.pings == w.before == 0
    && (forall p <- w.files.states :: w.files.states[p].Snapshot? ==> w.files.states[p].pings == 0)
    && (forall at <- w.files.records :: w.files.records[at].Saved? ==> w.files.records[at].pings == 0)
  }

  // ---- only an untouched clean stop is resumed --------------------------------------------------

  /** Every life had this state path. */
  predicate UnderState(es: seq<Event>, path: StatePath) {
    forall i :: 0 <= i < |es| && es[i].Begin? ==> es[i].setup.state == Some(path)
  }

  predicate Consumed(w: World, path: StatePath) {
    var x := StateAt(w.files, path);
    && (Resumable(x) ==> x.pings == w.pings)
    && (w.life.Alive? ==> w.life.setup.state == Some(path))
    && (w.life.Alive? && w.life.invalidated ==> !Resumable(x))
  }

  lemma NextConsumes(w: World, e: Event, path: StatePath)
    requires Consumed(w, path) && UnderState([e], path)
    ensures Consumed(Next(w, e), path)
  {
    assert [e][0] == e;
    if e.Invalidate? && w.life.Alive? { InvalidateConsumes(w, e.outcome, e.whole, path); }
  }

  lemma InvalidateConsumes(w: World, outcome: FileOutcome, whole: bool, path: StatePath)
    requires Consumed(w, path) && w.life.Alive?
    ensures Consumed(InvalidateStep(w, outcome, whole), path)
  {}

  lemma {:induction false} RunConsumes(w: World, es: seq<Event>, path: StatePath)
    requires Initial(w) && UnderState(es, path)
    ensures Consumed(Run(w, es), path)
  {
    if es != [] {
      RunConsumes(w, es[..|es| - 1], path);
      NextConsumes(Run(w, es[..|es| - 1]), es[|es| - 1], path);
    }
  }

  /** Over any run of starts, pings, saves, clean stops, crashes and failed file operations, all under one
      state path: a start under it resumes a snapshot only if no run has pinged the card since that
      snapshot was written, and every other start is latched, or from evidence with a record path. */
  lemma ResumedIsUntouched(w: World, es: seq<Event>, path: StatePath, setup: Setup, faults: Faults)
    requires Initial(w) && UnderState(es, path) && (setup.state.Some? ==> setup.state.value == path)
    ensures var now := Run(w, es); var kind, x := StartKind(now, setup, faults), Seen(now.files, setup).state;
      && (kind == Resumed ==> Resumable(x) && x.pings == now.pings)
      && (kind != Resumed ==> kind == Latched || (kind == FromEvidence && setup.record.Some? && x == NoState))
  {
    RunConsumes(w, es, path);
  }

  // ---- concrete runs -----------------------------------------------------------------------------

  lemma {:induction false} RunAppend(w: World, a: seq<Event>, b: seq<Event>)
    ensures Run(w, a + b) == Run(Run(w, a), b)
  {
    if b == [] {
      assert a + b == a;
    } else {
      RunAppend(w, a, b[..|b| - 1]);
      assert (a + b)[..|a + b| - 1] == a + b[..|b| - 1];
    }
  }

  lemma RunMore(w: World, es: seq<Event>, e: Event)
    ensures Run(w, es + [e]) == Next(Run(w, es), e)
  {
    assert (es + [e])[..|es|] == es;
  }

  lemma RunTwo(w: World, a: Event, b: Event)
    ensures Run(w, [a, b]) == Next(Next(w, a), b)
  {
    RunAppend(w, [a], [b]);
    assert [a] + [b] == [a, b];
    assert forall v, e :: Run(v, [e]) == Next(Run(v, [e][..0]), e);
  }

  /** A start whose invalidation goes through: it may ping. */
  function Unlocked(setup: Setup, faults: Faults): seq<Event> {
    [Begin(setup, faults), Invalidate(Done, true)] + [Invalidate(Done, true), Invalidate(Done, true)]
  }

  lemma UnlockedRun(w: World, setup: Setup, faults: Faults)
    requires w.life.Dead?
    ensures var v := Run(w, Unlocked(setup, faults)); var marked, d := setup.HasBoth(), Seen(w.files, setup);
      && v.life == Alive(setup, Idle, marked, true, false) && SameRun(w.(lives := w.lives + 1), v)
      && Elsewhere(w.files, v.files, setup)
      && Seen(v.files, setup)
         == Disk(if setup.state.Some? then Snapshot(false, true, w.pings) else NoState,
                 if marked then Some(MarkerText(w.bootId)) else d.marker, NoRecord)
  {
    hide Next, Run, Seen, Elsewhere, MarkerText;
    var a, b := [Begin(setup, faults), Invalidate(Done, true)], [Invalidate(Done, true), Invalidate(Done, true)];
    RunTwo(w, Begin(setup, faults), Invalidate(Done, true));
    RunTwo(Run(w, a), Invalidate(Done, true), Invalidate(Done, true));
    RunAppend(w, a, b);
    BeginNext(w, setup, faults);
    MarkNext(Next(w, Begin(setup, faults)), Done, true);
    RecordNext(Run(w, a), Done, true);
    var v := Next(Run(w, a), Invalidate(Done, true));
    StatusNext(v, Done, true);
    ElsewhereToo(w.files, Run(w, a).files, v.files, setup);
    ElsewhereToo(w.files, v.files, Run(w, a + b).files, setup);
    SeenWithout(Run(w, a + b).files, setup);
  }

  lemma ElsewhereToo(f: Files, g: Files, h: Files, s: Setup)
    requires Elsewhere(f, g, s) && Elsewhere(g, h, s)
    ensures Elsewhere(f, h, s)
  {}

  lemma SeenWithout(f: Files, s: Setup)
    ensures s.state.None? ==> Seen(f, s).state == NoState && Seen(f, s).marker.None?
    ensures s.record.None? ==> Seen(f, s).record == NoRecord
  {}

  /** A life that may ping does, and dies. */
  function Pinged(setup: Setup, faults: Faults): seq<Event> {
    Unlocked(setup, faults) + [Ping, Die]
  }

  lemma PingedRun(w: World, setup: Setup, faults: Faults)
    requires w.life.Dead?
    ensures var v := Run(w, Pinged(setup, faults)); var d := Seen(w.files, setup);
      && v.life == Dead && v.bootId == w.bootId && v.pings == w.pings + 1 && v.before == w.before
      && Elsewhere(w.files, v.files, setup)
      && Seen(v.files, setup)
         == Disk(if setup.state.Some? then Snapshot(false, true, w.pings) else NoState,
                 if setup.HasBoth() then Some(MarkerText(w.bootId)) else d.marker, NoRecord)
  {
    var a := Unlocked(setup, faults);
    hide Run, Seen, Elsewhere, Unlocked, Next;
    UnlockedRun(w, setup, faults);
    var v := Run(w, a);
    PingNext(v);
    DieNext(Next(v, Ping));
    RunTwo(v, Ping, Die);
    RunAppend(w, a, [Ping, Die]);
  }

  const NO_FAULTS := Faults(false, false, false, false)

  function Fresh(bootId: Option<string>): World {
    World(Files(map[], map[], map[]), bootId, Dead, 0, 0, 0, 0)
  }

  /** A clean stop under one state path, then a life with another or none that pings and dies. */
  function MixedLives(a: Setup, b: Setup, faults: Faults): seq<Event> {
    Unlocked(a, faults) + [Stop, FinalSave(Done, Failed)] + Pinged(b, faults)
  }

  lemma StoppedRun(w: World, a: Setup, faults: Faults)
    requires w.life.Dead? && a.state.Some?
    ensures var v := Run(w, Unlocked(a, faults) + [Stop, FinalSave(Done, Failed)]);
      && v.life == Dead && v.pings == w.pings && Seen(v.files, a).state == Snapshot(true, true, w.pings)
  {
    UnlockedRun(w, a, faults);
    var v := Run(w, Unlocked(a, faults));
    RunTwo(v, Stop, FinalSave(Done, Failed));
    RunAppend(w, Unlocked(a, faults), [Stop, FinalSave(Done, Failed)]);
    StopNext(v);
    FinalNext(Next(v, Stop), Done, Failed);
    hide Run, Next, Elsewhere, Seen;
  }

  /** A life with a state path and one with another or none, whatever their records: the second pings
      over the snapshot the first left, and the next start under the first path resumes that. */
  lemma StatePathNeeded(bootId: Option<string>, a: Setup, b: Setup, faults: Faults)
    requires a.state.Some? && b.state != a.state && !faults.stateFails
    ensures var now := Run(Fresh(bootId), MixedLives(a, b, faults));
      && Initial(Fresh(bootId))
      && StartKind(now, a, faults) == Resumed
      && Seen(now.files, a).state.pings < now.pings
  {
    var w, first := Fresh(bootId), Unlocked(a, faults) + [Stop, FinalSave(Done, Failed)];
    StoppedRun(w, a, faults);
    PingedRun(Run(w, first), b, faults);
    RunAppend(w, first, Pinged(b, faults));
    hide Run;
  }

  /** Every life was configured as one of these. */
  predicate SetupsIn(es: seq<Event>, setups: set<Setup>) {
    forall i :: 0 <= i < |es| && es[i].Begin? ==> es[i].setup in setups
  }

  /** However the lives and the next start are configured among these: what is resumed is untouched. */
  ghost predicate ResumesUntouched(setups: set<Setup>) {
    forall w, es, setup, faults ::
      Initial(w) && SetupsIn(es, setups) && setup in setups && StartKind(Run(w, es), setup, faults) == Resumed
      ==> Seen(Run(w, es).files, setup).state.pings == Run(w, es).pings
  }

  /** It holds over all runs exactly when the configurations all have the same state path, or none has one. */
  lemma ResumesUntouchedIff(setups: set<Setup>)
    ensures ResumesUntouched(setups) <==> forall a <- setups, b <- setups :: a.state == b.state
  {
    if forall a <- setups, b <- setups :: a.state == b.state {
      forall w: World, es: seq<Event>, setup: Setup, faults: Faults |
        Initial(w) && SetupsIn(es, setups) && setup in setups && StartKind(Run(w, es), setup, faults) == Resumed
        ensures Seen(Run(w, es).files, setup).state.pings == Run(w, es).pings
      {
        assert setup.state.Some?;
        var path := setup.state.value;
        assert UnderState(es, path);
        ResumedIsUntouched(w, es, path, setup, faults);
      }
    } else {
      var x, y :| x in setups && y in setups && x.state != y.state;
      var a, b := if x.state.Some? then x else y, if x.state.Some? then y else x;
      StatePathNeeded(None, a, b, NO_FAULTS);
      LivesAre(a, b, NO_FAULTS, setups);
      assert Initial(Fresh(None)) && StartKind(Run(Fresh(None), MixedLives(a, b, NO_FAULTS)), a, NO_FAULTS) == Resumed;
    }
  }

  lemma LivesAre(a: Setup, b: Setup, faults: Faults, setups: set<Setup>)
    requires a in setups && b in setups
    ensures SetupsIn(MixedLives(a, b, faults), setups)
  {}

  /** A clean stop is resumed: the first start after it under the same path that can read the file
      continues from it. */
  lemma CleanStopResumes(w: World, record: FileOutcome, faults: Faults, setup: Setup)
    requires w.life.Alive? && w.life.setup.state.Some? && w.life.stage == Idle && w.life.stopping
    requires setup.state == w.life.setup.state && !faults.stateFails
    ensures var now := Run(w, [FinalSave(Done, record), Die]);
      StartKind(now, setup, faults) == Resumed && Seen(now.files, setup).state.pings == w.pings
  {
    RunTwo(w, FinalSave(Done, record), Die);
    FinalNext(w, Done, record);
  }

  // ---- no start from evidence after a ping of the same boot -----------------------------------------

  /** Every life had both paths, its state in this directory, and every boot an id the marker can say. */
  predicate UnderMarker(es: seq<Event>, dir: string) {
    forall i :: 0 <= i < |es| ==>
      && (es[i].Begin? ==> es[i].setup.HasBoth() && es[i].setup.state.value.dir == dir)
      && (es[i].Reboot? ==> WellFormed(es[i].bootId))
  }

  /** The marker of this boot. */
  predicate MarkedHere(w: World, dir: string) {
    MarkerAt(w.files, dir) == Some(MarkerText(w.bootId))
  }

  predicate Guarded(w: World, dir: string) {
    var l := w.life;
    && WellFormed(w.bootId)
    && w.before <= w.pings
    && (w.before < w.pings ==> MarkedHere(w, dir))
    && (l.Alive? ==>
          && l.setup.HasBoth() && l.setup.state.value.dir == dir
          && (l.marked ==> MarkedHere(w, dir))
          && (l.invalidated || l.stage in {RemoveRecord, WriteStatus, RemoveState} ==> l.marked))
  }

  lemma NextGuards(w: World, e: Event, dir: string)
    requires Guarded(w, dir) && UnderMarker([e], dir)
    ensures Guarded(Next(w, e), dir)
  {
    assert [e][0] == e;
  }

  lemma {:induction false} RunGuards(w: World, es: seq<Event>, dir: string)
    requires Initial(w) && WellFormed(w.bootId) && UnderMarker(es, dir)
    ensures Guarded(Run(w, es), dir)
  {
    if es != [] {
      RunGuards(w, es[..|es| - 1], dir);
      NextGuards(Run(w, es[..|es| - 1]), es[|es| - 1], dir);
    }
  }

  /** With both paths in every life, all states in one directory, and well-formed boot ids: no start whose
      state path is there is from evidence once any run has pinged the card in the same boot, whatever
      vanished but the marker. */
  lemma EvidenceIsUnpinged(w: World, es: seq<Event>, dir: string, setup: Setup, faults: Faults)
    requires Initial(w) && WellFormed(w.bootId) && UnderMarker(es, dir)
    requires setup.state.Some? ==> setup.state.value.dir == dir
    ensures var now := Run(w, es);
      StartKind(now, setup, faults) == FromEvidence ==> now.pings == now.before
  {
    RunGuards(w, es, dir);
    MarkerOfThisBoot(Run(w, es).bootId);
  }

  /** Every life had this record path. */
  predicate UnderRecord(es: seq<Event>, at: string) {
    forall i :: 0 <= i < |es| && es[i].Begin? ==> es[i].setup.record == Some(at)
  }

  /** What the record leaves out, if anything, was done by the run that wrote it. */
  predicate RecordSays(w: World, at: string) {
    var r := RecordAt(w.files, at);
    r.Saved? ==> r.pings == w.pings || (!r.clean && r.life == w.pinger)
  }

  predicate Recorded(w: World, at: string) {
    var l, r := w.life, RecordAt(w.files, at);
    && RecordSays(w, at)
    && (l.Alive? ==>
          && l.setup.record == Some(at)
          && (l.invalidated ==> l.stage == Idle)
          && (l.invalidated && r.Saved? ==> !r.clean && r.life == w.lives)
          && (l.stage in {WriteStatus, RemoveState} ==> !r.Saved?))
  }

  lemma NextRecords(w: World, e: Event, at: string)
    requires Recorded(w, at) && UnderRecord([e], at)
    ensures Recorded(Next(w, e), at)
  {
    assert [e][0] == e;
  }

  /** With one record path in every life, the record there leaves out nothing, or only the last steps of
      the run that wrote it, a running checkpoint. */
  lemma {:induction false} RecordIsRecent(w: World, es: seq<Event>, at: string)
    requires Initial(w) && UnderRecord(es, at)
    ensures RecordSays(Run(w, es), at) && Recorded(Run(w, es), at)
  {
    if es != [] {
      RecordIsRecent(w, es[..|es| - 1], at);
      NextRecords(Run(w, es[..|es| - 1]), es[|es| - 1], at);
    }
  }

  /** A life that pinged and died, and the state gone that a start of this setup would find. */
  function Vanished(life: Setup, start: Setup, faults: Faults): seq<Event> {
    Pinged(life, faults) + if start.state.Some? && start.state == life.state then [LoseState(start.state.value)] else []
  }

  lemma VanishedRun(bootId: Option<string>, life: Setup, start: Setup, faults: Faults)
    requires start.HasBoth()
    ensures var now := Run(Fresh(bootId), Vanished(life, start, faults));
      && Initial(Fresh(bootId)) && now.bootId == bootId && now.before < now.pings
      && Seen(now.files, start)
         == Disk(NoState, if life.SharesMarker(start) then Some(MarkerText(bootId)) else None, NoRecord)
  {
    var w := Fresh(bootId);
    PingedRun(w, life, faults);
    var v := Run(w, Pinged(life, faults));
    if start.state == life.state {
      RunMore(w, Pinged(life, faults), LoseState(start.state.value));
    } else {
      assert Pinged(life, faults) + [] == Pinged(life, faults);
    }
    hide Run;
    assert MarkerAt(v.files, start.state.value.dir)
        == if life.SharesMarker(start) then Some(MarkerText(bootId)) else None;
    assert RecordAt(v.files, start.record.value) == NoRecord;
  }

  /** A boot id of dashes alone defeats the marker: it is not recognised as this boot's. */
  lemma DashesOnlyFails(bootId: Option<string>, setup: Setup, faults: Faults)
    requires setup.HasBoth() && !WellFormed(bootId) && !faults.stateFails && !faults.markerFails && !faults.overridden
    ensures var now := Run(Fresh(bootId), Vanished(setup, setup, faults));
      && MarkedHere(now, setup.state.value.dir)
      && StartKind(now, setup, faults) == FromEvidence && now.before < now.pings
  {
    VanishedRun(bootId, setup, setup, faults);
    MarkerOfThisBoot(bootId);
    hide Run;
  }

  /** So does a life that puts no marker down where the start looks, without both paths or with its state
      in another directory: whatever the boot id, once a state the start would find is gone. */
  lemma UnmarkedLifeFails(bootId: Option<string>, life: Setup, start: Setup, faults: Faults)
    requires start.HasBoth() && !life.SharesMarker(start)
    requires !faults.stateFails && !faults.markerFails && !faults.overridden
    ensures var now := Run(Fresh(bootId), Vanished(life, start, faults));
      StartKind(now, start, faults) == FromEvidence && now.before < now.pings
  {
    VanishedRun(bootId, life, start, faults);
    hide Run;
  }

  /** And with another state path, or none, there is nothing that would have to be gone: pinging and dying
      is enough. */
  lemma StatelessLifeFails(bootId: Option<string>, life: Setup, start: Setup, faults: Faults)
    requires start.HasBoth() && !life.SharesMarker(start) && life.state != start.state
    requires !faults.stateFails && !faults.markerFails && !faults.overridden
    ensures var now := Run(Fresh(bootId), Pinged(life, faults));
      StartKind(now, start, faults) == FromEvidence && now.before < now.pings
  {
    UnmarkedLifeFails(bootId, life, start, faults);
    assert Vanished(life, start, faults) == Pinged(life, faults);
  }

  /** Every boot had one of these ids. */
  ghost predicate BootsIn(es: seq<Event>, ids: iset<Option<string>>) {
    forall i :: 0 <= i < |es| && es[i].Reboot? ==> es[i].bootId in ids
  }

  /** However the lives and the next start are configured among these, over boots of these ids: no
      start is from evidence after a ping of its own boot. */
  ghost predicate EvidenceUnpinged(setups: set<Setup>, ids: iset<Option<string>>) {
    forall w, es, setup, faults ::
      && Initial(w) && w.bootId in ids && BootsIn(es, ids)
      && SetupsIn(es, setups) && setup in setups && StartKind(Run(w, es), setup, faults) == FromEvidence
      ==> Run(w, es).pings == Run(w, es).before
  }

  /** Every configuration has both paths, their states in one directory. */
  predicate OneMarker(setups: set<Setup>) {
    forall a <- setups, b <- setups :: a.SharesMarker(b)
  }

  /** It holds over all runs exactly when none of the configurations has both paths, or every one has,
      their states in one directory, and every boot id is well formed. */
  lemma EvidenceUnpingedIff(setups: set<Setup>, ids: iset<Option<string>>, some: Option<string>)
    requires some in ids
    ensures EvidenceUnpinged(setups, ids)
       <==> ((forall s <- setups :: !s.HasBoth()) || (OneMarker(setups) && forall id <- ids :: WellFormed(id)))
  {
    if forall s <- setups :: !s.HasBoth() {
    } else {
      var start :| start in setups && start.HasBoth();
      if OneMarker(setups) && forall id <- ids :: WellFormed(id) {
        MarkedHolds(setups, ids);
      } else if life :| life in setups && !life.SharesMarker(start) {
        UnmarkedLifeFails(some, life, start, NO_FAULTS);
        EvidenceFails(setups, ids, some, life, start);
      } else {
        var id :| id in ids && !WellFormed(id);
        DashesOnlyFails(id, start, NO_FAULTS);
        EvidenceFails(setups, ids, id, start, start);
      }
    }
  }

  lemma MarkedHolds(setups: set<Setup>, ids: iset<Option<string>>)
    requires OneMarker(setups) && forall id <- ids :: WellFormed(id)
    ensures EvidenceUnpinged(setups, ids)
  {
    forall w: World, es: seq<Event>, setup: Setup, faults: Faults |
      && Initial(w) && w.bootId in ids && BootsIn(es, ids)
      && SetupsIn(es, setups) && setup in setups && StartKind(Run(w, es), setup, faults) == FromEvidence
      ensures Run(w, es).pings == Run(w, es).before
    {
      assert setup.SharesMarker(setup);
      var dir := setup.state.value.dir;
      assert UnderMarker(es, dir) by {
        forall i | 0 <= i < |es| && es[i].Begin? ensures es[i].setup.HasBoth() && es[i].setup.state.value.dir == dir {
          assert es[i].setup.SharesMarker(setup);
        }
      }
      EvidenceIsUnpinged(w, es, dir, setup, faults);
    }
  }

  lemma EvidenceFails(setups: set<Setup>, ids: iset<Option<string>>, id: Option<string>, life: Setup, start: Setup)
    requires id in ids && life in setups && start in setups
    requires var now := Run(Fresh(id), Vanished(life, start, NO_FAULTS));
      StartKind(now, start, NO_FAULTS) == FromEvidence && now.before < now.pings
    ensures !EvidenceUnpinged(setups, ids)
  {
    var es := Vanished(life, start, NO_FAULTS);
    assert BootsIn(es, ids) && SetupsIn(es, setups) && Initial(Fresh(id)) && Fresh(id).bootId in ids;
  }
}
