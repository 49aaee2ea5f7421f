# The protection model, the guard and its restarts, verified

speakerguardd estimates how hot each voice coil can be from the words on the speaker wire, and renews
the card's volume lock only while that account shows every coil to be safe. This project models the
account, the lock, the files between runs and the capture reader, and proves what they promise: over
every input, every run and every card that keeps the contract of `trait Hw`.

Arithmetic is over the reals. `e^-x` and the attenuation `10^(-db/20)` are parameters that obey their laws
(`Curves.Lawful`); the first two laws hold of `e^-x` and of no other function. Code that changes
state is a class with that state (`Speaker.SpeakerState`, `Guards.Guard`, `Capture.SimPcm`,
`Capture.PeriodReader`), its loops are loops with invariants proved against a specification function, and
the theorems are about those functions and those objects. Clocks, the scheduler, control and file failures are
nondeterministic: `Cards.Card` lets any time pass inside every call.

| files | what they hold |
|---|---|
| `Thermal`, `Spread`, `Worst`, `LateEnergy`, `Drain`, `Latch`, `Blocks` | the coil and magnet step, its bound, the worst a run of it can have been, time cut into sub-steps, the latched start, a period's blocks |
| `Budget`, `Signals`, `Speaker`, `Restore` | the one-minute history, the governor, `SpeakerState`, the restart |
| `Inversion`, `GainLog`, `Placement`, `Bank`, `PartCredit` | undoing the gain, the gain's history, placing and crediting frames |
| `Domination`, `Measured`, `Books` | charges and measured frames against the truth, and the account as a run of bookings |
| `Floor`, `Threats`, `Card`, `Guard` | the floor, queued audio, the machine, the guard and its lock |
| `Evidence`, `FastMagnet`, `SteppedMagnet`, `EvidenceBudget`, `Codec` | the bounds of a protected past, of a quick magnet and of the model's own steps, the record's text |
| `Marker`, `Restart` | boot ids and the marker, the runs over the files |
| `Capture` | the period reader against the kernel's capture buffer |
| `Curves`, `Reals`, `Options`, `Config` | the laws of the curves, order arithmetic, missing values, what a configuration gives |

## Where the code and what it says of itself part

* The bound of the thermal step covers any spreading of a sub-step's energy (`SpreadEnergy.SpreadIsCovered`), but
  the state carried to the next sub-step is the constant-power end, not the late one. Eight sub-steps with their
  energy late and one with it early, none over full scale, on a driver the configuration check accepts, take the coil
  to the limit though no bound reached it (`LateEnergy.LateThenEarly`). The hottest the coil can have been follows from
  the charges alone: over all runs within full scale the bounds hold, and no fault means never at the limit, exactly
  when that worst is at or under them (`WorstSpread.BoundsHoldIff`, `WorstSpread.UnlatchedIsUnderIff`). Even of energy
  that comes at any power the coil is under the bound plus an excess (`SpreadEnergy.RunIsCovered`) that never grows
  past one sub-step's late energy over the lag's step (`SpreadEnergy.ExcessIsSmall`).
* A latched start covers every past exactly when the limit is no hotter than the magnet a full-scale signal would
  settle at (`Latch.LatchedCoversIff`); the configuration is not checked for it.
* `least_since` looks only 2^20 s past the window's start. It never misses a write exactly as long as the clock is
  within that of the last verified boundary's window (`GainLog.LookSeesIff`): twelve days without a boundary defeat
  it. No run of the guard is known to get there.
* A failed volume write is noted from the end of the call only, where a successful one is noted from before it. The
  least reduction stays right, but what the controls took in the failed call is among the possible reductions of a
  frame exactly if the frame's window reaches the end of the call, or the value was possible before
  (`GainLog.FailedWriteIff`, `GainLog.FailedWriteIsLate`).
* A lease found to run out inside the doubt about the last frame's end is marked ahead of the clock. The log then
  stays in order exactly if the next note is not before the mark, or the newest entry was flagged already, or the
  note says nothing new (`GainLog.MarkOrderIff`). The guard marks as the code does: its log is in order but for the
  lease's length, which pruning has room for, and no query of it needs more (`GainLog.HeldIsSpanned`,
  `GainLog.PruneIsInvisible`, `Guards.Guard.ChargeCoversTruth`).
* Frames whose end is in doubt are credited the most energetic of the runs they can have been. Where the account has
  reached into them, the first frame of the run counts in part, but the run is chosen as if it counted whole. The credit
  is at least what truly played, whatever the frames and wherever they ended, exactly if that frame counts whole, the
  end is known, or it is the only one (`PartCredit.CoversIff`); it is never short by more than the part of that frame
  that is not counted (`PartCredit.ShortByAFrame`). In those cases the budgets that held what was played hold it on,
  over any run of charges, silences and measured frames (`Books.RunStaysOver`, `Guards.Guard.BudgetsStayOver`).
* After a gap of more than an hour a restart sets the steady state of the safe level. That is no cooler than the gap's own
  steps leave the magnet exactly if the saved magnet was no hotter than it (`Restore.HourCoversIff`).
* A resumed snapshot is untouched over all runs exactly when every life and the next start have the same state path,
  or none has one (`Restart.ResumesUntouchedIff`). No start is from evidence after a ping of its boot exactly when none
  of them has both a state and a record path, or every one has both, all states lie in one directory, whose marker they
  share, and every boot id is well formed (`Restart.EvidenceUnpingedIff`). A life under another `--state`, or under
  `--state ""`, is enough to break the first (`Restart.StatePathNeeded`); the second a life under `--state ""` or one in
  another directory (`Restart.StatelessLifeFails`), and a boot id of dashes alone (`Restart.DashesOnlyFails`).
* Where the combined node is not the slower one (`e >= 1`), the magnet's formula falls back on "nothing over the hard
  limit". That is no bound of a magnet: on a driver the configuration check accepts half a second at 10 W takes the
  magnet to five times the limit, the coil at a twentieth of it, with a saved magnet and without
  (`FastMagnet.HalfASecondPasses`). From the ambient the limit holds of the magnet under every program that keeps the
  coil at or under it, whatever the branch, if and only if `tr_magnet * tau_coil <= tr_coil * tau_magnet`
  (`FastMagnet.FromAmbientIff`). In general the hottest magnet is the saved one and what a burst that takes the
  coldest coil to the limit at once adds to it: a bound holds exactly if it has room for that (`FastMagnet.KeptIff`,
  `FastMagnet.SavedBoundIff`).
* The magnet's formula is of a continuous plant, the model takes steps. Whatever their number, forward steps of at most
  `dt` stay under the formula if twice the share of the gap that `dt` closes, of the saved gap, is within the formula's
  margin of 1 K (`Evidence.ShortStepsUnderBound`). The model's own steps, the magnet before the coil and each lag in
  full, move its combination by exactly the pull of a slightly slower plant (`SteppedMagnet.OwnPowerDropsOut`); of any
  one length they stay under the formula, and under M* from the ambient, for every configuration whose step is within
  the margin (`SteppedMagnet.OwnStepsUnderBound`, `SteppedMagnet.OwnStepsUnderMStar`).

## Model

| member | source | states |
|---|---|---|
| Thermal.KernelSound | src/model.rs:495-502 | every positive step has lag steps inside (0, 1), a growth that exactly undoes the coil's decay, and late energy that is not negative |
| Thermal.SubSteps | src/model.rs:496-498 | the fewest whole sub-steps of at most MAX_SUB_DT |
| Thermal.HeatTemps | src/model.rs:486-516 | the loop leaves the nodes of the run of equal sub-steps and the highest of their bounds |
| Thermal.BoundClosedForm | src/model.rs:488-494 | the bound is the later of the late end and all of the energy at once at the start, grown |
| Thermal.StepMonotone | src/model.rs:504-512 | a hotter start or more power never leaves a cooler end or a lower bound |
| Thermal.RunMonotone | src/model.rs:495-516 | over any run, a start no hotter and no more power in any sub-step leave both nodes no hotter and the peak no higher |
| Thermal.PeakCovers | src/model.rs:503-516 | the peak is over every bound and every node of the run |
| SpreadEnergy.SpreadIsCovered | src/model.rs:486-516 | however a sub-step's energy is spread over any number of finer pieces, the coil is at most the bound at every one of them |
| SpreadEnergy.RunIsCovered | src/model.rs:495-516 | over every run of sub-steps spread anyhow, the plant's magnet never passes the model's and its coil by at most the excess |
| SpreadEnergy.ExcessIsSmall | src/model.rs:502-512 | over runs of any lengths, powers and ambients the excess never grows past the late energy of one sub-step of the longest length and power, over its lag step |
| WorstSpread.NeverPastWorst | src/model.rs:486-516 | over every run of charged sub-steps, however the energies came at no more than full scale, the coil never passes the worst the charges give |
| WorstSpread.WorstIsReached | src/model.rs:486-516 | and in every sub-step some such run reaches it |
| WorstSpread.BoundsHoldIff | src/model.rs:488-494 | no such run passes any of the bounds if and only if the worst does not |
| WorstSpread.UnlatchedIsUnderIff | src/model.rs:245-262 | a run that left no fault was never at the limit, however it was played, if and only if the worst was not |
| LateEnergy.LateThenEarly | src/model.rs:486-494 | a concrete run within full scale, charged exactly what came, of a driver the configuration check accepts at the ambient it is run at, that leaves no fault though its coil reaches the limit |
| Drains.HoldLater | src/model.rs:502-512 | of the two ways to cut a heating time into a longer and a shorter sub-step, a coil no slower than its magnet ends no cooler with the longer one later |
| Drains.HoldEarlier | src/model.rs:502-512 | and one no quicker with the longer one earlier |
| Drains.WholeStepsAreHottest | src/model.rs:495-512 | a heating time cut into sub-steps of at most MAX_SUB_DT in any way leaves both nodes no hotter than whole ones that last at least as long |
| Drains.CutIsBelow | src/model.rs:495-512 | the same with anything up to full scale in the sub-steps, from any start no hotter |
| Latch.LatchedCoversIff | src/model.rs:292-308 | the latched start covers every past with both nodes at the limit, any drain of up to DRAIN_S in sub-steps of any lengths up to MAX_SUB_DT, and any later steps, if and only if the limit is no hotter than the full-scale magnet |
| Latch.HeatPeakMonotone | src/model.rs:264-271 | more power never has a lower peak: what the bisection needs |
| Budget.WindowEnergy | src/model.rs:399-417 | the loop from the newest step back computes the window's energy |
| Budget.TrimIsInvisible | src/model.rs:213-243 | trimming changes nothing any window of up to a minute can see |
| Budget.TrimmedRunIsWhole | src/model.rs:211-243 | over any run of steps, every window of the trimmed history holds exactly what the record nothing was ever trimmed from does |
| Budget.TrimKeeps | src/model.rs:226-242 | trimming leaves at most a minute of proper steps |
| Budget.EnergyGrows | src/model.rs:399-417 | a longer window never holds less, and at most full scale more |
| Budget.CoversForEver | src/model.rs:213-243 | a history that covers another in every window still does after any identical later steps, trimming and all |
| Budget.ResumeCovers | src/model.rs:356-385 | the history rebuilt from a live one's exact energies holds at least its energy in every window |
| Signals.RecordedCoversTruth | src/model.rs:211-243 | every window of the recorded history holds at least the energy of every signal within full scale whose steps were recorded at no less |
| Speaker.WorstCaseFull | src/model.rs:284-290 | at no reduction the most power is full scale, and positive |
| Speaker.WorstCaseFalls | src/model.rs:284-290 | more reduction never lets more power through |
| Speaker.WorstIsFull | src/model.rs:158-169 | through whatever reduction, the most the coil can get was full scale before it |
| Speaker.BudgetHolds | src/model.rs:419-432 | the reduction a budget asks for brings the mean exactly to its limit, and any further one keeps it there |
| Speaker.ThermalAtCeiling | src/model.rs:456-483 | at the working ceiling the window asks for exactly its whole reduction, and over it for no less |
| Speaker.RebuiltCovers | src/model.rs:354-385 | a restart's history from the exact 1 s and 60 s means covers the live one, then and after any later steps |
| Speaker.ResumedLength | src/model.rs:356-385 | a rebuilt history is at most a minute long whatever the means said |
| Speaker.SpeakerState.constructor | src/model.rs:60-76 | a cold start |
| Speaker.SpeakerState.Heat | src/model.rs:245-262 | the nodes and the bound after `dt`; the fault latches exactly when the bound reaches the limit |
| Speaker.SpeakerState.RecordPre | src/model.rs:211-243 | the trimming loop leaves exactly the recorded and trimmed history |
| Speaker.SpeakerState.MeanPower | src/model.rs:399-417 | the mean is the window's energy over its length |
| Speaker.SpeakerState.BudgetReduction | src/model.rs:419-432 | a reduction that keeps the mean of the last second and of the last minute within their limits, and if any is asked for brings one of them exactly to its limit |
| Speaker.SpeakerState.StepPre | src/model.rs:171-178 | one step's nodes, bound, fault, history and time |
| Speaker.SpeakerState.StepAt | src/model.rs:158-169 | the coil gets the power, the budgets the power before the gain |
| Speaker.SpeakerState.StepPeriodPre | src/model.rs:189-202 | the coil goes through the blocks one after another and the fault latches exactly if the highest of their bounds reaches the limit; the budgets get the mean, the time moves by the period |
| Speaker.HeatAllRuns | src/model.rs:189-202 | one block is one step at its power, and a run of blocks goes on from where an earlier one ends |
| Speaker.PeakAllRuns | src/model.rs:189-202 | the bound of one block is its step's, that of two runs the higher of theirs |
| BlockRuns.BlocksAreCovered | src/model.rs:189-202 | however the energy of every sub-step of every block came, the plant's magnet never passes the model's after the period, and its coil by at most the excess |
| BlockRuns.PeakIsOverBlocks | src/model.rs:189-202 | at every moment of every sub-step of every block the coil is at most the period's bound and the excess by then |
| Speaker.SpeakerState.Govern | src/model.rs:456-483 | the hysteresis, the window's reduction, release by at most half a dB; both budgets' means within their limits through the reduction, and what it asks for beyond the window and the release brings one of them exactly to its limit |
| Speaker.SpeakerState.ClearHardIfCool | src/model.rs:273-282 | a fault clears exactly when the coil and its bound are under the working ceiling |
| Speaker.SpeakerState.AssumeLatched | src/model.rs:292-308 | the latched nodes, the fault, a minute of full scale |
| Speaker.SpeakerState.SettleAt | src/model.rs:341-352 | the steady state and a minute at its power |
| Speaker.SpeakerState.Resume | src/model.rs:354-385 | the saved nodes and the rebuilt history |
| Speaker.SpeakerState.ResumeGovernor | src/model.rs:387-397 | the fault, or without one in the file one exactly if the coil is not under the working ceiling; the peak and the reduction being released |
| Restore.ChargeGap | src/state.rs:176-183 | the loop charges exactly the gap: its nodes, its history, its time |
| Restore.ContinuedCovers | src/state.rs:165-184 | a driver continued from exact means holds, in every window of up to a minute, the energy before the gain of everything played before the stop and in any way since, after a short gap and after a long one |
| Restore.GapStaysOver | src/state.rs:170-183 | a driver saved no cooler than its coil and magnet is no cooler after the gap, whatever they got within the safe level |
| Restore.HourCoversIff | src/state.rs:174-179 | the steady state set after a long gap is no cooler than stepping through it leaves the magnet if and only if the saved magnet was no hotter than it |
| Restore.RestoreAll | src/state.rs:148-187 | proven exactly if released and whole; every named speaker continued: nodes, history, peak, reduction and a fault exactly if there was one or the gap's bounds reached the limit; every other latched |
| Inversion.ConvertedAt | src/model.rs:522-542 | the loop's choice among the possible reductions |
| Inversion.ConvertedIsTheMost | src/model.rs:522-542 | no range that can have delivered the word could at more |
| Inversion.FramePowers | src/model.rs:123-150 | every frame's two powers, each from its own word |
| Inversion.DeliveredIsClose | src/model.rs:123-150 | the coil's power that is reported is that of the word's whole steps: never more than what was played, and less by at most the step above |
| Inversion.InversionIsSound | src/model.rs:123-150 | the power before the gain is at least the source's: exactly for an exact gain table, within twice its rounding otherwise, the cap included |
| GainLog.MarkIsExact | src/guard.rs:878-891 | marking a log in order keeps its order and changes nothing at any instant but the kernel flag from `from` on, the oldest entry's standing for the time before it |
| GainLog.HeldIsSpanned | src/guard.rs:902-910 | what held at an instant of a query's window is among its spans, ending no earlier, of any log in order or not |
| GainLog.SpanWasHeld | src/guard.rs:902-910 | and every span held at some instant of it, unless replaced the moment it came |
| GainLog.PruneIsInvisible | src/guard.rs:893-900 | pruning never changes what a query is told from the prune point on, or from `d` after it of a log in order but for `d` |
| GainLog.LeastIsUnderTruth | src/guard.rs:934-941 | the least since a boundary is at most what the controls really held at any instant from QUEUE_BOUND before it |
| GainLog.LookSeesIff | src/guard.rs:934-941 | for all logs that cover the truth, the least is at most what the controls held if and only if the clock is within 2^20 s of the window's start |
| GainLog.LookEndsEarly | src/guard.rs:938 | for any later clock a log whose write at full gain is not seen |
| GainLog.PossibleIsComplete | src/guard.rs:1055-1074 | whatever the card may have applied at an instant of the window is in one of the ranges |
| GainLog.LoggedFrameIsSound | src/guard.rs:1234-1240 | a frame converted at anything the log allows is inverted to at least its source's power |
| GainLog.NoteCovers | src/guard.rs:869-876 | a new entry no higher than what is held keeps the log's answer for the past |
| GainLog.WriteNoted | src/guard.rs:1653-1690 | a write that landed any time inside the call, in part or whole, is covered by the entry noted for it |
| GainLog.WriteLogAllows | src/guard.rs:1653-1671 | after a write that took, the log allows the new value from before the call on and any of the old until its end |
| GainLog.MarkCovers | src/guard.rs:878-891 | marking keeps the log's answer for the past |
| GainLog.MarkShaped | src/guard.rs:878-891 | a mark up to `d` ahead of the clock keeps the log in order but for `d`, its newest value, and no entry ahead but copies |
| GainLog.PruneCovers | src/guard.rs:893-900 | pruning keeps it from the prune point on |
| GainLog.StartCovers | src/guard.rs:664-670 | a start's unknown entry answers for anything held before |
| GainLog.MarkOrderIff | src/guard.rs:1217-1225 | the log stays in order through a mark and the next note if and only if the mark is not ahead of the note, the newest entry was flagged, or the note says nothing new |
| GainLog.FailedWriteIff | src/guard.rs:1673-1690 | what a failed write left on the controls is among the possible reductions of a window if and only if the window reaches the call's end or it was among them before |
| GainLog.FailedWriteIsLate | src/guard.rs:1673-1690 | over a window inside the newest entry: if and only if the window reaches the call's end or the value was held |
| Placement.EndIsPlaced | src/guard.rs:401-412 | every true end between the two clock reads, a part of a frame included, is from `early` to `shift` frames later |
| Placement.LastMost | src/guard.rs:1262-1267 | the offset chosen has the largest energy |
| Placement.OffsetIsCovered | src/guard.rs:1260-1268 | for any whole or fractional offset the most energetic run holds at least what played |
| Placement.PlacedIsCovered | src/guard.rs:1197-1223 | for every true end the placed span is credited at least the energy that truly played in it |
| PartCredit.CoversIff | src/guard.rs:1228-1284 | for all frames and all ends the credit of the newest `k`, the first of them in part, holds at least what truly played if and only if that one counts whole, the end is known, or `k` is one |
| PartCredit.ShortByAFrame | src/guard.rs:1228-1284 | and it is never short by more than what is not counted of its first frame |
| PartCredit.KnownEndIsExact | src/guard.rs:1228-1284 | for a known end it is exactly what played |
| Placement.CutOrder | src/guard.rs:1250-1253 | the blocks of frames are in order and none is empty |
| Placement.MeansCarryAll | src/guard.rs:1242-1254 | the blocks' means over equal shares of the time carry exactly the run's energy, however unevenly it divides |
| Bank.RunEnergy | src/guard.rs:1241-1284 | the stretches of a run carry exactly its energy, the first frame weighted by its part |
| Bank.StepAll | src/guard.rs:1157-1163 | every driver stepped exactly once by the same time: nodes, time, budgets' entry before the gain, and the fault exactly when the bound reaches the limit |
| Bank.MeasureRun | src/guard.rs:1268-1287 | the run in one stretch or in two: nodes, peak, fault, history, time and the loudest block |
| BlockRuns.MeasuredIsCovered | src/guard.rs:1241-1287 | a driver stepped through a measured run, its first frame in part: however the energy of every sub-step of its blocks came, the plant's magnet never passes the driver's and its coil by at most the excess |
| BlockRuns.MeasuredPeakIsOver | src/guard.rs:1270-1285 | and at every moment of its first stretch the coil is at most the run's bound and the excess by then |
| BlockRuns.RestPeakIsOver | src/guard.rs:1270-1285 | and of the frames after a first one that counts in part |
| Bank.MeasureAll | src/guard.rs:1255-1289 | every driver stepped through its own most energetic runs |
| Bank.MostReduction | src/model.rs:544-548 | the largest reduction any driver asks for |
| Floor.UnderStays | src/guard.rs:1014-1026 | more reduction keeps a driver under |
| Floor.Bisect | src/guard.rs:1027-1040 | under at the result, or at the mute; and not under within MUTE_DB/2^24 below it |
| Floor.LeastFloor | src/guard.rs:1021-1041 | every driver under if and only if each is at MUTE_DB; within MUTE_DB/2^24 of the least such reduction |
| Floor.OnGridIs | src/guard.rs:1042 | rounding keeps it but for 1e-9 of a step, and costs less than a step |
| Floor.FloorDb | src/guard.rs:1014-1044 | the floor as written: every driver under, and none needed a step more |
| Threats.NoThreatHolds | src/guard.rs:943-991 | without a threat no program through anything the controls really held in the window brings a coil within the margin before the next look |
| Threats.LeastIsHeld | src/guard.rs:960-984 | the log's least is no more than what the controls held, and is held on for as long as they held it |
| Threats.QueueHolds | src/guard.rs:972-988 | nor, past the jump, does the program as last seen on what was queued at the least, for as long as it plays |
| Cards.Card.SetReduction | src/guard.rs:150-153 | applied rounded up, or failed at the old value, the new one, or some at each |
| Cards.Card.SetSafe | src/guard.rs:158-162 | the minimum, or some controls left where they were |
| Cards.Card.Ping | src/guard.rs:148-149 | taken some time inside the call; the notice of a lapse comes no earlier than the lease's length after the last ping |
| Cards.Card.WriteRecord | src/guard.rs:829-842 | the record is the old one or the new one; success means the new |
| Cards.Card.WriteState | src/guard.rs:221-226 | the file is the old one or the new one; success means the new |
| Guards.Guard.constructor | src/guard.rs:516-690 | a start keeps every invariant, every governor asked, charges what two clock readings leave open after a resumed stop, sets the controls to their minimum unless that call fails, and does not hold the lock |
| Guards.Guard.NextResumeIsUntouched | src/guard.rs:556-611 | at any point of a guard's life, what the next start under its state path would resume no run has pinged over, if every run before it had that path |
| Guards.Guard.NextEvidenceIsUnpinged | src/guard.rs:577-601 | nor would a start that looks at its marker be from evidence once this guard or an earlier one of the boot has pinged, if every run before it had both paths and that marker |
| Guards.Guard.Invalidate | src/guard.rs:692-751 | success leaves no resumable state, the marker of this boot down and no record |
| Guards.Guard.NoteWritten | src/guard.rs:869-876 | the log gains the new value, unless it is the newest entry's, and goes on answering for the past |
| Guards.Guard.MarkKernelSince | src/guard.rs:878-891 | the log marked, from up to the lease's length ahead of the clock, its invariants kept |
| Guards.Guard.Verify | src/guard.rs:893-900 | the boundary moved and the log pruned, still answering for all that can be playing |
| Guards.Guard.ChargeCoversTruth | src/guard.rs:1150-1166 | in every reachable state whose last boundary is less than 2^20 s old, a charge is at least full scale through what the controls really held at any instant from QUEUE_BOUND before that boundary |
| Guards.Guard.ChargeStaysOver | src/guard.rs:1150-1166 | while the last boundary is less than 2^20 s old, a driver whose nodes and budgets are over the truth stays over it through a charge, whatever was really played meanwhile |
| Domination.CoilUnderConstant | src/model.rs:504-512 | pieces of at most `p` leave the coil no hotter than `p` all along |
| Guards.Guard.Charge | src/guard.rs:1150-1166 | every driver stepped from the account's end to `to` at full scale through the least reduction: nodes, fault, and full scale in the budgets |
| Guards.Guard.Cool | src/guard.rs:1168-1181 | every driver stepped there with no power, and the boundary verified |
| Books.CreditIsExact | src/guard.rs:1228-1232 | the frames credited, the first in part, last exactly as long as the time not yet accounted |
| Books.WholeIsEnough | src/guard.rs:1205-1232 | frames none of which was accounted count whole |
| Guards.Guard.MeasureUnseen | src/guard.rs:1228-1290 | the account moved to the end, every driver through its most energetic runs inverted at the possible reductions, and so booked |
| Guards.Guard.MeasureFrames | src/guard.rs:1209-1292 | charged up to the frames, measured from there on at what the log allows with the lapse marked in it: nodes, budgets, fault; and the end verified |
| Measured.MeasuredStaysOver | src/guard.rs:1197-1284 | budgets over the truth are over it after measured frames, if the first of those not yet accounted counts whole, their end is known or there is but one: every window of up to a minute holds at least the energy before the gain of what truly played, wherever the frames ended |
| Books.MeasuredStaysOver | src/guard.rs:1209-1292 | the same of a driver as a measured booking leaves it, its words inverted through the log, for sources converted at anything the card may have applied |
| Books.RunStaysOver | src/guard.rs:1150-1292 | and over any run of charged, silent and measured stretches |
| Guards.Guard.BudgetsStayOver | src/guard.rs:1150-1292 | in every reachable state: whatever was played in the stretches booked since any earlier point, within full scale while charged, nothing while known closed, and what the words came from while measured, budgets that held the past hold it all |
| Guards.Guard.MeasureShifted | src/guard.rs:1197-1293 | whole, partly and already accounted frames alike: the drivers charged up to the frames, then through the most energetic runs of these words, inverted at what the log allows with the lapse marked in it up to the late end; the account, the boundary, the log and the bookings exactly as the frames say, or nothing moved |
| Guards.Guard.PlaceFrames | src/guard.rs:1295-1303 | the frames measured as placed by the two clock reads and the backlog: account, boundary, log and bookings |
| Guards.Guard.ReadTails | src/guard.rs:1309-1334 | every tail the capture gave was placed and measured in order, until one was empty, could not be placed, was short of a period, or more than enough were read |
| Guards.Guard.AccountClose | src/guard.rs:1305-1338 | the tails measured, and from where they leave the drivers and the account everything up to the look charged at full scale through the least reduction |
| Guards.Guard.HandOff | src/guard.rs:1076-1089 | the lock given up, the log marked from where the lease may have run out and still answering for the old gain; fatal only if the card's call failed |
| Guards.Guard.PingLock | src/guard.rs:1099-1124 | only entered on a fresh model; the lease is taken to start before the card took the ping |
| Guards.Guard.CardSafeOk | src/guard.rs:1126-1140 | the card's level is asked for; one louder than configured, and only that, is a mismatch from then on |
| Guards.Guard.TargetDb | src/guard.rs:1046-1053 | at least the governor's, at least the floor, and no higher than either needs |
| Guards.Guard.HoldCovers | src/guard.rs:1014-1022 | what was converted at a write has played by the end of the time the floor holds, if the card was looked at within a period of the lease's end and stopped |
| Guards.Guard.FloorRises | src/guard.rs:1014-1044 | more reduction keeps what the floor keeps |
| Guards.Guard.Mute | src/guard.rs:1603-1611 | the minimum known and noted, or nothing changed |
| Guards.Guard.Unlock | src/guard.rs:1602-1641 | the lock is held only with the controls at their minimum, the card's level asked for and not louder, and the model found fresh again after the ping; and without a failed call, a mismatch or a stale model it is held |
| Guards.Guard.Write | src/guard.rs:1653-1692 | what is known to be on the controls after a write that took, or failed in part |
| Guards.Guard.WriteReduction | src/guard.rs:1644-1692 | still holding the lock, the controls were asked for exactly the target less than PING_INTERVAL ago and hold at least it: the governor's reduction and the floor; given up or fatal only if a call failed |
| Guards.Guard.Renew | src/guard.rs:1693-1705 | a lock that is overdue or asked for is pinged; a renewal whose model is found stale after the ping gives the lock up in the same pass, and nothing else does |
| Guards.Guard.QueueThreat | src/guard.rs:943-991 | a look that finds no threat means that neither any program within reach nor, past the jump, the program last seen on what is queued can bring a coil within the margin |
| Guards.Guard.Keep | src/guard.rs:1577-1594 | a held lock is kept if and only if there is data, no fault, the reduction under its most, and no threat; and kept, every coil is out of reach of what is queued |
| Guards.Guard.Take | src/guard.rs:1595-1643 | a lock taken only below the hysteresis, by a guard that sees, on a fresh model; and always taken then, with the old stop invalidated and no mismatch, unless a call of the card fails |
| Guards.Guard.DecideLock | src/guard.rs:1571-1706 | a held lock whose lease has not run out is given up only if the faults, the reduction, the data or what is queued ask for it, a call fails or the model goes stale; a free one is left only for as good a reason; still held, it was pinged now or less than PING_INTERVAL ago |
| Guards.Guard.BringUpToDate | src/guard.rs:1560-1570 | time nothing else can cover is charged |
| Guards.Guard.Decide | src/guard.rs:1554-1736 | after every decision that succeeds: held only if safe, and then pinged in it or less than PING_INTERVAL ago, the write as recent; every ping checked after; thermal time moves as the account, charged and so booked exactly if nothing else can cover it; no ping once stopping; fatal only if a call failed |
| Guards.Guard.LookClosed | src/guard.rs:1371-1403 | a stream that was playing is closed, its tails measured and the rest charged; otherwise closed speakers are stepped without power exactly when two looks and the events between vouch for it, and charged if not |
| Guards.Guard.FirstSight | src/guard.rs:1418-1429 | a stream first seen is charged from the last look at closed speakers |
| Guards.Guard.ReadOne | src/guard.rs:1453-1497 | one period is read; it is placed and measured exactly if it came whole and its position was read, which is when data was last seen; what any other reading does to the capture and the periods seen in a row |
| Guards.Guard.LookOpen | src/guard.rs:1406-1497 | a stream first seen is charged up to now, a lock still held is pinged before the capture is opened, and a running capture is read once, on top of that account |
| Guards.Guard.Tick | src/guard.rs:1340-1499 | after every pass that succeeds the lock is held only with events, the old stop invalidated, not stopping, the rate read, no mismatch, no fault, the governor under its most and the write over governor and floor, pinged in the pass or less than PING_INTERVAL before it, every ping of it followed by a check that the model was current; what was read is measured on the account as the pass found it; nothing is taken for silent unless no stream was playing and no event came; fatal only if a call failed |
| Guards.Guard.LeaseOutruns | src/guard.rs:1539-1546 | a lock pinged in a pass outlives the account by at most the time the data may be late and the lease's length |
| Guards.Guard.WrittenKeepsBudgets | src/guard.rs:1644-1692 | whenever the lock is held after a pass, what is written covers every coil's window and keeps every driver's means within its budgets |
| Guards.Guard.Stop | src/guard.rs:764-778 | the lock given up for good, nothing pinged |
| Guards.Guard.Released | src/guard.rs:780-784 | released only DRAIN after the lock was given up |
| Guards.Guard.FinalSave | src/guard.rs:786-824 | a resumable state only once released and drained, everything accounted and so booked, newer than every ping; then the record for the next boot, if that write takes; the run is then over for the restarts' model too |
| Guards.Guard.Serve | src/main.rs:435-464 | over any number of passes and a stop thermal time moves as the account, and by what the final save's clock readings leave open on top; what is saved is newer than every ping |
| Evidence.PowerDropsOut | src/boot.rs:54-71 | one step moves the combination of the two nodes by the coil's pull, whatever the power |
| Evidence.ProgramContracts | src/boot.rs:54-71 | over every program under the limit the combination closes on its star at least by the product of its factors |
| Evidence.MagnetNeverPumped | src/boot.rs:227-254 | the magnet never passes what the combination's start allows |
| Evidence.FromAmbientUnderMStar | src/boot.rs:54-71 | from the ambient no program under the limit takes the magnet past `(ta + r T) / (1 + r)` |
| Evidence.StarIsMStar | src/boot.rs:227-254 | the formula's own star is that temperature |
| Evidence.LeftAtLeast | src/boot.rs:244-252 | the product of a program's factors is its exponential less its coarseness |
| Evidence.LeftIsClose | src/boot.rs:244-252 | and, however long, its exponential less twice the largest share a step closes |
| Evidence.MagnetUnderBound | src/boot.rs:227-254 | where the formula has one (`e < 1`): every program whose steps are fine enough for the formula's margin leaves the magnet under the formula's bound |
| Evidence.ShortStepsUnderBound | src/boot.rs:227-254 | where the formula has one: over any interval, for steps of at most a length that the configuration and the saved magnet alone allow |
| Evidence.UnknownMagnetUnderBound | src/boot.rs:227-254 | where the formula has one: from the ambient, with nothing saved, it always does |
| FastMagnet.FromAmbientIff | src/boot.rs:227-254 | for every configuration: no program from the ambient takes the magnet past the limit, and the formula's bound without a saved magnet holds, if and only if `tr_magnet * tau_coil <= tr_coil * tau_magnet` |
| FastMagnet.KeptIff | src/boot.rs:227-254 | where the combined node is not the slower one, a bound holds of every program from a saved magnet, and for any time since, if and only if the burst from the coldest coil fits under it |
| FastMagnet.FitsKeeps | src/boot.rs:227-254 | with that room from the warmer of the saved magnet and that of a coil held at its coldest, it holds for any saved magnet |
| FastMagnet.SavedBoundIff | src/boot.rs:238-242 | the fallback to the larger of the saved magnet and the limit holds exactly then |
| FastMagnet.HalfASecondPasses | src/boot.rs:238-242 | a configuration the daemon accepts whose magnet is five times its bound after one protected step |
| SteppedMagnet.OwnPowerDropsOut | src/model.rs:502-512 | one step of the model moves the combination of a slightly slower plant by exactly the derivation's pull, whatever the power |
| SteppedMagnet.PowerOverExp | src/boot.rs:244-252 | what any number of its steps leave of the gap is at least the formula's exponential |
| SteppedMagnet.OwnStepsUnderMStar | src/boot.rs:54-71 | from the ambient the model's own steps of one length never take the magnet past M* |
| SteppedMagnet.OwnStepsUnderBound | src/boot.rs:208-254 | from a saved magnet they leave it under the formula's bound, for any number of steps, if the configuration's step is within the margin |
| Evidence.EnergyTelescopes | src/boot.rs:292-302 | a program's energy telescopes to what its nodes store and leak |
| Evidence.EnergyUnderProtected | src/boot.rs:292-302 | and is at most the protected energy |
| EvidenceBudget.HistoryCovers | src/boot.rs:304-318 | the history of a start from evidence covers every past of at most the energy given and the time since at the safe level |
| EvidenceBudget.ProtectedPastIsCovered | src/model.rs:333-337 | with the energy a start takes, it covers every program that kept the coil under its limit up to this boot |
| Codec.PrintRoundTrip | src/boot.rs:449-463 | a printed number parses back exactly when it fits 64 bits |
| Codec.Hex16RoundTrip | src/boot.rs:449-463 | sixteen hex digits, and back |
| Codec.RoundTrip | src/boot.rs:445-498 | for any checksum and state text a record comes back if and only if its ids and times fit |
| Codec.DecodesSummed | src/boot.rs:465-479 | a record is read exactly as far as its checksum is that of what follows it |
| Codec.ChangedIsRefused | src/boot.rs:465-479 | one whose body changed since it was written, and the checksum of it, is refused |
| Marker.MarkerOfThisBoot | src/boot.rs:363-384 | a boot's own marker is recognised if and only if its id is well formed |
| Restart.ResumedIsUntouched | src/guard.rs:556-611 | over every run of starts, pings, saves, stops, crashes and failed files in which every life has the same state path, a start under it resumes a snapshot only if no run pinged since it was written; every other is latched, or from evidence |
| Restart.ResumesUntouchedIff | src/guard.rs:552-556 | for any set of configurations, state and record paths each, of the lives and the next start, over all runs: if and only if all of them have the same state path or none has one |
| Restart.StatePathNeeded | src/guard.rs:552-556 | one life with a state path and one with another or none break it, whatever their record paths |
| Restart.CleanStopResumes | src/guard.rs:786-824 | the first start after a clean stop under its state path that can read the file resumes it |
| Restart.EvidenceIsUnpinged | src/guard.rs:577-601 | with both paths in every life, all states in one directory, and well-formed boot ids, no start whose state path is there is from evidence after a ping of the same boot |
| Restart.RecordIsRecent | src/guard.rs:712-725 | with one record path in every life the record there leaves out nothing, or only its writer's last steps |
| Restart.EvidenceUnpingedIff | src/guard.rs:577-601 | for any set of configurations, paths and all, and of boot ids, over all runs: if and only if none has both paths, or every one has, all states lie in one directory, and every id is well formed |
| Restart.StatelessLifeFails | src/main.rs:82-95 | a life with no state path or another one that does not share the marker, whatever its record path, pings and dies, and the next start with both is from evidence, whatever the boot id |
| Restart.UnmarkedLifeFails | src/guard.rs:692-725 | any life that puts no marker where the start looks breaks it once a state the start would find is gone |
| Restart.DashesOnlyFails | src/boot.rs:363-384 | a boot id of dashes alone breaks it |
| Capture.InterruptsCatchUp | src/alsa.rs:766-773 | after any advance the next interrupt lies ahead and the position poll sees is less than a period behind |
| Capture.SimPcm.Advance | src/alsa.rs:760-780 | the DMA moves on, every interrupt it passes is taken, and it stops exactly when an overrun is due |
| Capture.SimPcm.Readi | src/alsa.rs:795-817 | a transfer hands out the DMA's next frames |
| Capture.SimPcm.Wait | src/alsa.rs:828-845 | ready only with a period there, or an overrun; not ready only with less than two |
| Capture.PeriodReader.ReadReady | src/alsa.rs:577-590 | an incomplete period only for an overrun, and the stream restarts |
| Capture.PeriodReader.ReadPeriodWithin | src/alsa.rs:566-575 | between overruns the periods are the DMA's frames in order, none lost or repeated |
| Capture.PeriodReader.ReadTail | src/alsa.rs:592-606 | the tail is the next of them |

## Left out

- SpreadEnergy.UnlatchedIsUnder: under the limit plus the excess, for energy that comes at any power at all; within full scale the exact condition is WorstSpread.UnlatchedIsUnderIff.
- Evidence.MagnetUnderBound: of forward steps fine enough for the formula's margin where the time since is known, and of the formula's own branch; the other is FastMagnet.SavedBoundIff, the model's own steps SteppedMagnet.OwnStepsUnderBound.
- FastMagnet.KeptIff: for a saved magnet cooler than that of a coil held at its coldest, which only a chassis hotter than the model's ambient allows, the room is enough (FastMagnet.FitsKeeps) but not shown to be needed.
- SteppedMagnet.OwnStepsUnderBound: of steps of one length; the combination that is exact for one length is not for another.
- Guards.Guard.BudgetsStayOver: the budgets only. The nodes cover whatever came in the blocks credited (BlockRuns.MeasuredIsCovered), but with the end in doubt the credited run has the energy of what played and not its order, so they are not shown to be over the truth. For frames accounted in part PartCredit.CoversIff says when the credit is enough; and a doubt about the end longer than the frames leaves the last of them as certain, as the code does.
- Guards.Guard.LookFailed: the playback state becomes unknown after the hand-off, where the code sets it just before; nothing in between looks at it.
- Guards.Guard.constructor: takes the drivers as a start restored them (Restore, Latch, Evidence); how a start chooses is Restart.StartKind.
- Guards.Guard.FinalSave: the time between the two readings of the boot clock is any time at all; the retries that make it short are not modelled, nor what the record holds beside its kind and when it was written.
- Cards.Card.SetReduction: a success applies at least what was asked for; a request past the controls' minimum, which a card could only meet by muting, is not told apart.
- Cards.Card.Ping: the lease runs in wall time; the kernel's counts only while a stream plays, so real lapses come later.
- Restart.Next: a file write or removal is atomic (it took effect or it did not, whatever it reported); fsync, rename and links are not modelled. States, markers and records are three kinds of file: no record or state path that names another's marker.
- f64 rounding, overflow, NaN and infinities: the reals, with an unknown controls' value as its own case. `Instant` and `Duration` underflow at boot likewise.
- `Thermal::hold`, `coil_after`, `coil_extremum`, `tail_bound`, `start_bound`: closed forms that need calculus of `exp` and `ln`.
- `assume_evidence`, `usable` and `elapsed_max`, which choose the inputs of the evidence bounds; chassis sensors, the RTC and clock agreement.
- The checkpoint thread, but for its writes (Restart); logging, statistics, signals, argument and configuration parsing, ALSA calls and layouts, `mlockall`.
- The state file's six-digit text (src/state.rs:54-146): only its flags, what it covers and the restore are modelled.
- Whether the thermal constants match a real speaker.
