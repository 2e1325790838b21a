# afanctl: a verified model of the fan daemon

afanctl is a fan-control daemon for Apple laptops on Linux. Every few seconds it reads the command
file and the temperature sensors, decides on a fan speed, writes it through the system management
controller, checks that the hardware did what it was told, and hands the fan back to the firmware
when it did not. Its design goal is to *fail toward the firmware*: a bug, a lost sensor, a broken write or a
dead actuator should end with the firmware in charge of the fan.

This project models that daemon in Dafny and proves, for every command sequence, every temperature
trace and every pattern of hardware failures, what the daemon keeps of that goal and where it falls
short, together with the arithmetic and the protocols underneath it.

## How it is organised

| file | what it is |
|---|---|
| `Basics.dfy` | options, machine ranges, Rust's integer helpers; the compiled-in safety limits |
| `Configuration.dfy` | validation of the five user settings |
| `Policy.dfy`, `PolicyTheorems.dfy` | the controller: specification functions, the `Controller` object proved against them, and what it does over whole histories |
| `Smc.dfy` | settled writes: the nested sample and re-issue loops over a register nothing is assumed of |
| `Machine.dfy` | one poll, startup and the daemon's run as functions of a state and an environment |
| `Supervisor.dfy` | the `Supervisor` object, each method proved to move its fields as `Machine` says |
| `Growth.dfy`, `Invariants.dfy`, `Memory.dfy`, `Ladder.dfy`, `Verdicts.dfy`, `Forgiven.dfy`, `DeadWrites.dfy`, `Ownership.dfy`, `Refused.dfy`, `Control.dfy`, `Restore.dfy`, `Stall.dfy`, `Windows.dfy`, `Watchdog.dfy` | theorems about every run |
| `HonestFan.dfy`, `ClosedLoop.dfy`, `FirstTurn.dfy` | the loop closed over honest, lagging hardware; the daemon's decisions as policy histories; a turn in which everything works |
| `Calendar.dfy` | the hand-rolled UTC timestamps, against a calendar defined day by day |
| `Compare.dfy` | the doctor's comparison report |

The environment (`Machine.Env`) answers the `k`-th call of a run with an arbitrary `Answer`: whether
a read works, whether a write verifies, how long it slept in its settle windows, what the fan, the
sensors and the command file said. `Answer.physics` holds what the daemon cannot see: a write that
was reported failed but took effect later, the firmware taking the fan back, how far the tachometer
moves. Every call is logged with its answer, and the theorems read the log. The tags that say where
a call comes from, and the log marks `Rearmed` and `Healthy` that say where the strike counter is
cleared, exist only for the specification; `Verdicts.VerdictIsExact` pins down the second mark and
`Control.ApplyModeGate` the transition behind the first.

`Setup.Ok` is the only assumption about configuration, and `Configuration.ValidatedExactlyWhenSound`
shows it is what validation gives. `Watchdog.InTime` assumes of each settled write exactly the sleep
bound that `Smc.WriteSpeed`, `Smc.SetMode` and `Smc.ProbeSafeRestore` are proved to keep.

## What the proofs say about the code

- docs/SAFETY.md:7-8 promises that every failure path ends "with the firmware owning the fan again, or with afanctl
  refusing to take it". Three failure paths leave the fan in Manual all the same.
  1. *Failed writes are forgiven.* A failed control write counts a strike, but L1 of the same poll clears the counter
     when its own checks pass (src/supervisor.rs:869-879), which they do while the fan sits in Manual on the speed remembered
     from before. So a write path that fails for ever is never escalated, although docs/SAFETY.md:45 says that write failures
     feed the three-strike ladder. `Forgiven.GivesUpExactly` says when a run gives up control, `ThreeFailedWrites` what becomes of
     three failing writes in a row, and `DeadWrites.BrokenWritesAreForgiven` that no temperature and no sensor loss changes it.
     `OverheatingRun` sits at 100 degrees and the minimum speed for ever; `BlindRun` has no sensors and fails to return
     the fan for ever. Every poll of both
     reports `verified`, which src/supervisor.rs:281 calls the failure verdict of the poll.
  2. *A fan is forgotten after a ghost take.* A control write that takes the fan is reported failed but the hardware adopts it all
     the same: the daemon believes it owns nothing, so an observe command releases nothing and retries nothing.
     `Ownership.StrandedRun` is such a run.
  3. *An inherited fan is left alone.* The fan was inherited in Manual and neither the probe nor the reconcile could move it: the
     daemon ends in Observe, owning nothing, with nothing pending. `Ownership.StartupFan` says when, and `Refused.RefusedForEver`
     what follows: no write at all until a third failed L1 read. Control is refused, so the letter of the promise is kept, but the
     fan stays in Manual.

  In the first path the daemon knows that it owns the fan. A fan it does not own, or has given up without a release
  pending, is in Manual only by the other two: `Ownership.ForgottenExactlyWhenLoose` is the exact condition over all runs.
- The controller's thresholds saturate so that a bad setting degrades and never overflows
  (src/policy.rs:230-232, 242-244), but the slew step `from + 750` does overflow `u32` when
  `max_rpm` is above `u32::MAX - 750`, which validation accepts. `CurveArithmeticFits` is the exact condition.
- A hotter reading can lower the speed: while ramping, leaving the hysteresis band upward re-enters the
  linear part, which may ask for less than the speed being held. `HotterIsSlowerExactlyWhen` is the exact
  condition, `HotterCanBeSlower` a run with the default settings.
- The comment at src/config.rs:38-54 puts a failed speed write at about 3.0 s and a failed mode write at about 2.0 s,
  and the worst poll at about 10 s. A window sleeps before every sample but the first, so the worst
  cases are 2.7 s, 1.8 s and 9.9 s. `Watchdog.PollIsBounded` is the bound, and `PollBoundIsTight` a run of the daemon that reaches it. The comment
  above `WATCHDOG_UNIT_SEC` speaks of one ping per poll; there are two.
- A pending restore does not mean the fan is owned: the third strike of a failed attempt to take the
  fan sets it too. The theorems use the direction that holds (an owned, passive fan has one).
- A held speed from the command file is stored as it came and clamped at the write, although the comment at
  src/supervisor.rs:486-488 has it clamped when read.

## Model

| member | source | states |
|---|---|---|
| Configuration.ValidatedExactlyWhenSound | src/config.rs:141-257 | validation accepts a configuration if and only if the supervisor's setup is sound (band, thresholds, interval) and at least two speeds lie in both the configured and the hardware band |
| Configuration.RejectionNamesTheKey | src/config.rs:141-230 | the setting a rejection names, exactly: `max` outside 0 to 95; `high` not in order below it; an empty speed band, configured or after the hardware's cut; an interval outside 1 to 12 s |
| Configuration.CurveIsConfigured | src/config.rs:248-257 | the accepted curve runs from the configured minimum at `high` to the configured maximum at `max`, not cut down to the hardware, with the hysteresis floor three degrees below `high` |
| Configuration.AppliedInBoth | src/supervisor.rs:704-723 | in every run with a validated configuration, a speed that a curve poll applies lies in both the configured and the hardware band, although the controller works on the configured band alone |
| Policy.Controller.CurveStep | src/policy.rs:130-157 | the in-place curve step moves the controller's fields and returns the decision exactly as the specification says, guard before slew, reset on a full loss run |
| Policy.Controller.HoldStep | src/policy.rs:163-184 | the same for hold: the overshoot guard overrides the held speed, a full loss run returns the fan |
| Policy.Controller.ObserveStep | src/policy.rs:189-195 | the same for observe: never commands, still tracks temperature and losses |
| PolicyTheorems.HottestIsMaximum | src/policy.rs:204-213 | the effective temperature is a valid reading, no valid reading is hotter, and it is missing exactly when every sensor is |
| PolicyTheorems.StreaksAreTails | src/policy.rs:130-238 | after any interleaving of curve, hold and observe polls the counters equal the current run of hot polls and of lost polls modulo three, and the output is in the band |
| PolicyTheorems.ExactStreaks | src/policy.rs:130-238 | for every history: escalation exactly when the last three polls were valid and at least `max - 1`; return to AUTO exactly when the current run of lost polls is a positive multiple of three; neither in observe |
| PolicyTheorems.DecisionIsExact | src/policy.rs:130-195 | every other decision of every history: a speed exactly when the poll is valid, in curve or hold, and not the third hot one, the held speed in hold; nothing exactly in observe or on a lost run that is no multiple of three |
| PolicyTheorems.RampingExactly | src/policy.rs:130-264 | the hysteresis latch, over every history: ramping exactly when some curve poll reached `high` and no curve poll since fell below `low` or returned the fan |
| PolicyTheorems.CurveOutputIsExact | src/policy.rs:241-289 | every valid curve poll short of escalation moves the speed toward the curve's target by at most 750 rpm, exactly; the target is the minimum below `low`, the maximum from `max`, in proportion (rounded down) between `high` and `max`, and in the band the present speed while ramping or the minimum |
| PolicyTheorems.LastSeen | src/policy.rs:199-223 | the temperature on record is that of the last valid poll |
| PolicyTheorems.InterimLossWritesNothing | src/policy.rs:153-156 | a lost run that is not a multiple of three commands nothing and keeps the output, in every mode |
| PolicyTheorems.OutputMoves | src/policy.rs:130-279 | over every history the output moves by at most 750 rpm, except that in curve mode escalation jumps to the maximum and a return to the firmware resets to the minimum; hold and observe leave it, and it never leaves the band |
| PolicyTheorems.CurveConvergence | src/policy.rs:241-279 | at a constant temperature below `low`, or from `high` to the guard, the distance to the curve's target after n polls is exactly max(0, d - 750 n), from any controller state; the target is the proportional one of `CurveOutputIsExact` |
| PolicyTheorems.HistoryIsForgotten | src/policy.rs:241-279 | two controllers with different pasts agree on a limit that depends on the temperature alone, once n polls could cover the band |
| PolicyTheorems.LinearTargetShape | src/policy.rs:284-289 | the interpolation divides the speed band as the temperature divides its band, rounded down; it is exact at both ends and monotone between them |
| PolicyTheorems.HotterIsNeverSlower | src/policy.rs:130-143 | two runs from one state: if A is pointwise no hotter than B, loses the same polls and stays out of the hysteresis band, A's output never exceeds B's |
| PolicyTheorems.HotterIsSlowerExactlyWhen | src/policy.rs:241-264 | for any state and two readings the cooler one gets the higher speed if and only if: ramping, cooler in the hysteresis band, hotter on the linear part below the guard, and the linear target under the current output |
| PolicyTheorems.HotterCanBeSlower | src/policy.rs:130-264 | a run with the default settings that reverses: after three polls at 86 degrees, a fourth at 65 keeps 6200 rpm and a fourth at 66 drops to 5450 |
| PolicyTheorems.CurveArithmeticFits | src/policy.rs:225-289 | no operation of a curve poll leaves its machine type, over all reachable states and readings from 0 to 120 degrees, if and only if `max_rpm` is at most `u32::MAX - 750` |
| Smc.Settle | src/smc.rs:324-338 | the window accepts the first matching sample, aborts on the first failed read, sleeps before every sample but the first |
| Smc.SettleWrite | src/smc.rs:346-393 | the nested loops end as specified for every register behaviour: only an expired window is re-issued, and once |
| Smc.SettleSucceedsExactly | src/smc.rs:346-393 | success if and only if the first sample that is not quiet matches, within two windows, with the write calls of its window (and the one before) accepted; one write if it falls in the first window; a failed verify names the last read-back |
| Smc.SettleIsBounded | src/smc.rs:324-393 | whatever the hardware does: at most two writes, twenty read-backs and eighteen sleeps |
| Smc.WriteSpeed | src/smc.rs:636-648 | succeeds with the clamped target only on an echo at most 50 rpm below or above it, and sleeps at most 2.7 s |
| Smc.SetMode | src/smc.rs:656-671 | succeeds only when the last read-back is the token of the wanted mode, and sleeps at most 1.8 s |
| Smc.ProbeSafeRestore | src/smc.rs:683-721 | the restore path is proven if and only if there is a descriptor, its one write went through and the first sample of one window that is not quiet reads Auto; never re-issued, and no longer asleep than a mode write |
| Smc.ScreenAll | src/smc.rs:398-420 | a reading survives screening if and only if its sensor gave one between 0 and 120 degrees, and then unchanged |
| Supervision.Supervisor.FallBack | src/supervisor.rs:902-939 | the object's fallback is the machine's: control latched off, and ownership given up only on a verified restore |
| Supervision.Supervisor.ApplyRequest | src/supervisor.rs:575-653 | the object applies a command as the machine does, in the same order of refusals, re-arming and release |
| Supervision.Supervisor.RetryRestore | src/supervisor.rs:947-982 | the object's pending-restore retry is the machine's |
| Supervision.Supervisor.WriteTarget | src/supervisor.rs:704-723 | take the fan if needed, clamp, skip a value already written, remember only a verified one |
| Supervision.Supervisor.VerifyFan | src/supervisor.rs:758-879 | the object's L1 pass is the machine's: mode drift, tracking, stall window, verdict |
| Supervision.Supervisor.Poll | src/supervisor.rs:254-299 | one poll of the object gives exactly the state and report of the machine's step, under every environment |
| Supervision.Supervisor.StartUp | src/supervisor.rs:305-421 | inherited mode sampled before the probe, control refused without proof, then the reconcile |
| Supervision.Supervisor.Loop | src/supervisor.rs:348-364 | n turns of the object's loop are n turns of the machine, so every theorem about runs is about the object |
| Invariants.DaemonInvariant | src/supervisor.rs:305-365 | in every run: a passive supervisor that owns the fan has the release pending; a remembered speed is in the hardware band and held only while owning the fan (that it was verified is the next row); strikes below 3, stall window below 10; without a proven restore, Observe and no ownership |
| Memory.RemembersOnlyVerified | src/supervisor.rs:704-723 | in every run, under every fault pattern, the supervisor remembers a speed if and only if some write of exactly that speed was verified and since then no other was, and the fan was not returned to Auto, found there by the retry, or given up in a fallback |
| Memory.PictureIsHistory | src/supervisor.rs:575-982 | in every run the daemon believes it owns the fan exactly when its last verified mode write was Manual and no retry has found Auto since; a release is pending exactly when one failed and nothing has settled or superseded it; the tachometer it compares with is that of the last L1 read that worked |
| Ladder.LadderHolds | src/supervisor.rs:869-939 | in every run the strike counter equals the failing calls logged since it was last cleared; a strike fallback stands in the log exactly where the third strike was counted; no turn falls back twice |
| Verdicts.VerdictIsExact | src/supervisor.rs:758-879 | L1 reports health if and only if none of its calls failed in a way that counts and it did not fall back; the strike counter is cleared exactly on such a poll with a live written speed on an owned fan |
| Verdicts.ReportIsExact | src/supervisor.rs:277-298 | a poll reports verified if and only if it ends in control and none of the calls L1 made in it failed in a way that counts or fell back; it reports the mode it ends in and the temperature on record |
| Verdicts.AppliedIsExact | src/supervisor.rs:675-723 | a poll reports a speed as applied if and only if its control write of that speed verified |
| Forgiven.ForgivenExactly | src/supervisor.rs:758-879 | on an owned fan with a remembered speed, L1 reports health and wipes every strike if and only if the fan reads, is in Manual or put back there, and is at most 150 rpm below or above that speed, or a re-assert works and the tachometer moved by more than 50 rpm or the stall window does not fill |
| Forgiven.GivesUpExactly | src/supervisor.rs:869-939 | an active run without fresh commands is in monitor-only if and only if some turn made the third strike since the last forgiving turn, or stalled; until then the counter is that tally |
| Forgiven.ThreeFailedWrites | src/supervisor.rs:675-723 | three turns in a row whose control write fails while L1's own calls work give up control if and only if none of them forgives, which is exactly when no speed is remembered in any of them |
| DeadWrites.BrokenWritesAreForgiven | src/supervisor.rs:869-879 | while every write fails and the fan sits in Manual on the remembered speed, no run gives up control, asks for the fan's release or keeps a strike, and every poll reports verified, whatever the sensors say or fail to say |
| DeadWrites.OverheatingRun | src/supervisor.rs:254-299 | such a run of the daemon with the default settings: 100 degrees, full speed decided from the fourth turn on, the fan at its minimum for ever |
| DeadWrites.BlindRun | src/supervisor.rs:675-699 | and one with every sensor lost: the fan's return is decided in exactly every third turn, fails, and is forgiven |
| Verdicts.SilentExactlyWhenHealthy | src/supervisor.rs:675-879 | in control with a written speed and no fresh command, a whole turn leaves the hardware alone if and only if the decision is nothing new and the fan reads Manual and at most 150 rpm below or above that speed, or the read fails short of the third strike |
| Verdicts.DriftIsRepaired | src/supervisor.rs:785-791 | an owned fan that reads Auto is back in Manual and owned by the end of that poll when the write verifies, unless the poll falls back |
| Verdicts.CommandWritesExactly | src/supervisor.rs:489-653 | the command step writes to the hardware exactly when news asks for observe while an owned fan is under control: one write of Auto, and the fallback's if that is the third strike |
| Ownership.StartupVerdict | src/supervisor.rs:305-436 | startup gives up control exactly when it inherited a fan it could not confirm in Auto; it then, or without a proven restore, ends in Observe with nothing owned, written, pending or counted |
| Ownership.StartupFan | src/supervisor.rs:305-421 | what startup leaves the fan in: Manual if and only if it was inherited so, nobody took it back, neither the probe nor the reconcile's write took effect |
| Ownership.ForgottenExactlyWhenLoose | src/supervisor.rs:575-982 | in every run, from either inherited mode, with truthful reads and any faults: a fan the supervisor does not own, or has given up without a release pending, is in Manual if and only if the last thing that decided its mode was a control write of Manual reported failed and adopted all the same, or nothing has decided it since it was inherited in Manual |
| Ownership.NoStrandedFan | src/supervisor.rs:604-639 | the consequence for runs that start with the fan in Auto and hold no ghost take: a fan in Manual is owned, and if control has been given up its release is pending |
| Ownership.StrandedRun | src/supervisor.rs:254-299 | a whole run with truthful reads and one late-adopted take that ends that way |
| Refused.LeftAloneExactly | src/supervisor.rs:658-779 | a supervisor that has given up a fan it neither owns nor is releasing, with nothing to bring control back, writes to the hardware if and only if its failed L1 reads add up to a third strike, and that write is the fallback's restore; until then the fan stays in Manual exactly if it is there and the firmware does not take it back |
| Refused.RefusedForEver | src/supervisor.rs:305-345 | when startup's probe fails, no later turn of any run writes to the hardware, whatever the command file says, if and only if L1 has failed to read the fan fewer than three times; a fan left in Manual stays there meanwhile |
| Control.PassiveMeansPassive | src/supervisor.rs:658-680 | a passive supervisor with a quiet command file issues no write that takes or drives the fan, and stays passive |
| Control.NoControlWithoutProof | src/supervisor.rs:305-345 | in every run each write that takes or drives the fan comes after a successful probe; if the probe failed the daemon stays in Observe for ever and makes none, whatever the command file says |
| Control.TurnGate | src/supervisor.rs:489-653 | valid content that differs from the last applied is recorded, and, unless it asks for control without a restore path, the turn ends in exactly the mode it asks for; no other read changes either; monitor-only falls exactly on such content that asks for control, and the rest of the turn can only latch it |
| Control.AppliedAtMostOnce | src/supervisor.rs:489-518 | a command file whose content never changes is applied at most once in a run, and never un-latches monitor-only after that |
| Restore.RetryUntilVerified | src/supervisor.rs:947-982 | a poll with a pending restore reads the fan and, unless it reads Auto, writes Auto exactly once; the flag clears if and only if one of the two showed Auto, and then nothing is owned |
| Restore.RecommandAgainstPendingRestore | src/supervisor.rs:586-601 | a fresh control command supersedes a pending restore exactly when monitor-only is latched; otherwise the retry goes first and control re-enters behind it |
| Restore.ReleasedAndStaysReleased | src/supervisor.rs:947-982 | once the hardware obeys, a passive run with no fresh command has released the fan by the end of the next turn, stays released, and never writes anything but Auto |
| Restore.ReleasedMeansAuto | src/supervisor.rs:902-982 | and the fan is then physically in Auto: it is in Manual only if it was loose to begin with and no release was pending, and exactly as long as it stays loose |
| Stall.TenMotionlessVerdictsLatch | src/supervisor.rs:813-867 | ten consecutive motionless off-target verdicts latch monitor-only by the tenth, however the written target moves |
| Stall.StallNeedsTenMotionless | src/supervisor.rs:813-867 | the stall fallback fires only on a motionless verdict that is at least the tenth since the last moving or on-target one |
| Stall.StallFiresExactly | src/supervisor.rs:813-867 | a turn falls back for a stall if and only if its verdict is motionless, the window L1 starts from holds nine, and its own re-assert does not make a third strike first |
| Windows.L1WindowIsExact | src/supervisor.rs:758-867 | the stall window and the off-target window after any L1 pass, exactly: closed on target, on an unowned fan and in a fallback; the first also by motion; otherwise one more |
| Windows.EntryWindowIsExact | src/supervisor.rs:575-723 | before L1 a turn closes the windows exactly by a fallback or by a retry that releases the fan |
| Watchdog.PollIsBounded | src/supervisor.rs:254-299 | over every branch and fault pattern the settle sleeps between the two pings of one poll total at most 9.9 s |
| Watchdog.PollBoundIsTight | src/supervisor.rs:254-299 | for every setup the daemon has a run whose third poll sleeps exactly 9.9 s between its pings |
| Watchdog.WatchdogIsFed | src/config.rs:32-58 | in every run with any validated interval the time slept before each ping since the one before stays below the 15 s unit budget |
| Watchdog.TurnIsFramed | src/supervisor.rs:254-364 | every turn starts with a ping and ends with a second one and one sleep of the configured interval |
| HonestFan.MockSmc.DriveSpeed | src/smc.rs:970-1012 | the mock's speed write verifies exactly when the fan is in Manual or the register already echoes the target, leaves the register there, and writes once if the echo comes within a window |
| HonestFan.MockSmc.SwitchMode | src/smc.rs:1016-1047 | the mock's mode write verifies exactly when the echo latency is below a window's samples or the mode is already there, and only then changes the mode |
| HonestFan.MockSmc.Tachometer | src/smc.rs:935-957 | reading slews the tachometer toward the register in Manual, never past it, and mirrors it into the register in Auto |
| HonestFan.TachSlewMoves | src/smc.rs:909-916 | a read moves the tachometer by exactly the smaller of its rate and the distance to the register, and closer by as much |
| HonestFan.AutoMirrors | src/smc.rs:935-1047 | in every history of the honest fan, in Auto the register mirrors the tachometer |
| HonestFan.HonestFanIsSettled | src/smc.rs:346-393 | the honest fan is the settle protocol over honest registers: its mode and speed writes verify exactly when the two-window protocol does, with either generation's tokens |
| HonestFan.HealthyFan | src/supervisor.rs:758-879 | the daemon on honest hardware with any tachometer rate above 50 rpm per read: at every turn of every run no strike, at most one stalled poll, never monitor-only, ownership and register agree with the hardware, every poll verified |
| HonestFan.HealthyExactlyWithinTheWindow | src/smc.rs:324-338 | honest hardware is never blamed in any run if and only if its echo latency is below the samples of a settle window |
| ClosedLoop.DaemonFollowsPolicy | src/supervisor.rs:254-299 | in every run the controller is stepped once per turn: its state is the policy folded over the turns so far, and each decision is the policy's |
| ClosedLoop.SensesTheHottest | src/supervisor.rs:266-275 | the temperature a turn acts on is the hottest in-range reading that any sensor of that turn's answer gave, and there is none exactly when none did or the whole read failed |
| ClosedLoop.EscalatesExactlyWhenHot | src/supervisor.rs:658-668 | the daemon escalates in a turn if and only if it is in control once the command file is read, and it and the two turns before each had a sensor at `max - 1` or more |
| ClosedLoop.LostSensorsReturnFan | src/supervisor.rs:675-699 | the daemon decides to return the fan if and only if the turn is active and the run of lost turns is a positive multiple of three; an owned fan then gets one write of Auto, and is given up if and only if it verifies or is the third strike |
| ClosedLoop.TurnApproaches | src/supervisor.rs:704-723 | on honest hardware, any turn that decides on a speed writes it and ends more than 50 rpm closer to it, or on it |
| ClosedLoop.SpeedIsReached | src/smc.rs:909-957 | while the daemon keeps deciding on one speed, for whatever reason, the fan is within max(0, d - 51 n) of it after n turns |
| ClosedLoop.HonestRunHolds | src/supervisor.rs:305-365 | such runs exist for every setup: on honest hardware the daemon takes the fan in its first turn, writes its speed and holds it for ever |
| Calendar.EraIsFloor | src/supervisor.rs:1107-1110 | the truncating division of the adjusted day number is floor division, negative days included |
| Calendar.CivilFromDaysCorrect | src/supervisor.rs:1107-1122 | every day number, negative ones included, becomes a valid Gregorian date whose day count is that number |
| Calendar.DaysRoundTrip | src/supervisor.rs:1107-1122 | converting a valid date's day count gives the date back |
| Calendar.EpochIsDayZero | src/supervisor.rs:1107-1122 | day 0 is 1970-01-01 |
| Calendar.ConsecutiveDays | src/supervisor.rs:1107-1122 | consecutive day numbers become consecutive calendar dates |
| Calendar.DaysKeepOrder | src/supervisor.rs:1107-1122 | day order and date order agree |
| Calendar.IsoTextRoundTrip | src/supervisor.rs:1090-1104 | the published text is digits with the separators of RFC 3339 section 5.6 in their places, reads back as a real date and time from 1970 on that names its second exactly, and has twenty characters exactly until the year 9999 ends |
| Calendar.IsoStampKeepsOrder | src/supervisor.rs:1090-1104 | a second is earlier if and only if its timestamp is |
| Compare.CompareFromTrace | src/doctor.rs:757-812 | row i holds the decision of the controller folded over the first samples; samples and lost add up to the trace and the dropped reads; every summary field is that of the deltas |
| Compare.RowIsExact | src/doctor.rs:766-790 | a row pairs its sample with the commanded speed, the maximum on escalation and none otherwise, and its delta is ours less the firmware's |
| Compare.SummaryAdds | src/doctor.rs:791-800 | the sum and the three counts are additive over the deltas, each delta counting as itself |
| Compare.CountsPartition | src/doctor.rs:798-800 | quieter, louder and equal add up to the comparable samples |
| Compare.MaxAbsIsMaximum | src/doctor.rs:791 | the reported maximum bounds every delta and one of them reaches it |
| Compare.MeanBetween | src/doctor.rs:792-797 | the mean delta lies within the reported maximum, in either direction |
| Compare.VerdictMeans | src/doctor.rs:815-828 | "never louder" if and only if no delta is positive, and then neither the sum nor the mean is; "never quieter" and "mixed" likewise mean what they say |

## Left out

- Sysfs discovery, attribute generations, file access and permissions: I/O; the hardware is the environment's answers.
- TOML, JSON and command-file text: parsing libraries that are not part of this model; commands arrive parsed, with their raw content kept as an opaque identity for the freshness gate.
- Signal handlers, the pre-opened descriptor, panic hook and notify sockets: the death path is present or absent as the probe says, and pings are log events.
- `state.json`, `recent_errors`, notes, log wording, the retry-log countdown, the repeated off-target warning (the counter behind it is modelled), and the counters that only feed them (`polls`, `watchdog_pings`, `auto_restore_attempts`, `last_actual`).
- Wall-clock time: only the sleeps of settle windows and between polls are counted, not computation or file reads.
- Streak and poll counters are unbounded, so the overshoot streak's `u32` does not wrap after 2^32 hot polls.
- The command-line tools, the doctor's checklist and its rendering, packaging.
- The mock backend's instant mode, injected faults and naps: only its tachometer-lag physics are modelled, with latency counted in samples.
- Compare.MeanBetween: the mean is a real quotient; the rounding of the program's floating-point division is not modelled.
- Ownership.NoStrandedFan: excludes ghost takes and runs that startup leaves in Manual, because the property can fail there; the exact condition for all runs is `Ownership.ForgottenExactlyWhenLoose`.
- Ownership.ForgottenExactlyWhenLoose: assumes that fan reads tell the truth, as the daemon must.
