/** The supervisor object: the fields the daemon updates in place, and every step of the
    poll loop proved to move them exactly as `Machine` says. */
module Supervision {
  import opened Basics
  import opened Limits
  import opened Policy
  import opened Smc
  import opened Machine

  /** A backend: answers calls from a script nobody constrains, and keeps the log. */
  class Backend {
    const env: Env
    var log: seq<Event>

    constructor (env: Env)
      ensures this.env == env && log == []
    {
      this.env := env;
      log := [];
    }

    method Ask(call: Call) returns (a: Answer)
      modifies this
      ensures a == env(|old(log)|)
      ensures log == old(log) + [Event(call, a)]
    {
      a := env(|log|);
      log := log + [Event(call, a)];
    }
  }

  class Supervisor {
    const setup: Setup
    const smc: Backend
    const controller: Controller
    var mode: RunMode
    var monitorOnly: bool
    var manualArmed: bool
    var autoRestorePending: bool
    var lastWritten: Option<nat>
    var prevActual: Option<nat>
    var writeFailures: nat
    var stallPolls: nat
    var offTargetPolls: nat
    var l2Absent: bool
    var lastCmd: Option<Doc>

    predicate Valid() { setup.Ok() && controller.curve == setup.curve }

    function View(): Sup
      reads this, smc, controller
    {
      Sup(controller.View(), mode, monitorOnly, manualArmed, autoRestorePending, lastWritten, prevActual,
          writeFailures, stallPolls, offTargetPolls, l2Absent, lastCmd, smc.log)
    }

    constructor (setup: Setup, smc: Backend, start: RunMode)
      requires setup.Ok() && smc.log == []
      ensures Valid() && this.setup == setup && this.smc == smc && fresh(controller)
      ensures View() == NewSup(setup, start)
    {
      this.setup, this.smc := setup, smc;
      controller := new Controller(setup.curve);
      mode := match start case HoldMode(rpm) => HoldMode(Clamp(rpm, setup.hwMin, setup.hwMax)) case _ => start;
      monitorOnly, manualArmed, autoRestorePending := false, false, false;
      lastWritten, prevActual := None, None;
      writeFailures, stallPolls, offTargetPolls := 0, 0, 0;
      l2Absent, lastCmd := false, None;
    }

    /** Put a call to the backend. */
    method Issue(call: Call) returns (a: Answer)
      requires Valid()
      modifies smc
      ensures (View(), a) == Ask(old(View()), call, smc.env)
    {
      a := smc.Ask(call);
    }

    method Record(call: Call)
      requires Valid()
      modifies smc
      ensures View() == Note(old(View()), call, smc.env)
    {
      var _ := Issue(call);
    }

    /** Give up control and clear every counter. */
    method LatchOff()
      requires Valid()
      modifies this
      ensures View() == old(View()).(monitorOnly := true, lastWritten := None, writeFailures := 0, stallPolls := 0, offTargetPolls := 0)
    {
      monitorOnly, lastWritten, writeFailures := true, None, 0;
      stallPolls, offTargetPolls := 0, 0;
    }

    method FallBack(site: Site)
      requires Valid()
      modifies this, smc
      ensures View() == DegradeToAuto(old(View()), site, smc.env)
    {
      LatchOff();
      var a := Issue(SetMode(Auto, site));
      if a.verified {
        manualArmed := false;
        autoRestorePending := false;
      } else {
        autoRestorePending := true;
      }
    }

    method CountFailure()
      requires Valid()
      modifies this, smc
      ensures View() == FailWrite(old(View()), smc.env)
    {
      writeFailures := writeFailures + 1;
      if writeFailures >= WRITE_FAIL_FALLBACK {
        FallBack(OnThirdStrike);
      }
    }

    method TakeFan(site: Site) returns (taken: bool)
      requires Valid()
      modifies this, smc
      ensures (View(), taken) == EnterManual(old(View()), site, smc.env)
    {
      var a := Issue(SetMode(Manual, site));
      if a.verified {
        manualArmed := true;
        return true;
      }
      CountFailure();
      return false;
    }

    /** Re-arm control on a fresh command; owning the fan again supersedes a pending restore. */
    method Rearm()
      requires Valid()
      modifies this, smc
      ensures View() == Note(old(View()).(monitorOnly := false, writeFailures := 0, restorePending := false), Rearmed, smc.env)
    {
      monitorOnly := false;
      writeFailures := 0;
      autoRestorePending := false;
      Record(Rearmed);
    }

    /** Release an owned fan on command; a failed release stays owned and is retried. */
    method Release()
      requires Valid()
      modifies this, smc
      ensures var (u, a) := Ask(old(View()), SetMode(Auto, AtCommand), smc.env);
              View() == if a.verified then u.(manualArmed := false, lastWritten := None, restorePending := false)
                        else FailWrite(u.(restorePending := true), smc.env)
    {
      var a := Issue(SetMode(Auto, AtCommand));
      if a.verified {
        manualArmed := false;
        lastWritten := None;
        autoRestorePending := false;
      } else {
        autoRestorePending := true;
        CountFailure();
      }
    }

    method ApplyRequest(requested: RunMode)
      requires Valid()
      modifies this, smc
      ensures View() == ApplyMode(old(View()), requested, smc.env)
    {
      if l2Absent && requested != ObserveMode {
        return;
      }
      if monitorOnly && requested != ObserveMode {
        Rearm();
      }
      if requested == mode {
        return;
      }
      if requested == ObserveMode && mode != ObserveMode {
        if manualArmed {
          Release();
        }
        mode := requested;
        return;
      }
      mode := requested;
    }

    method ReadCommand()
      requires Valid()
      modifies this, smc
      ensures View() == ApplyCmdFile(old(View()), smc.env)
    {
      var a := Issue(ReadCmd);
      if !a.cmd.Content? || lastCmd == Some(a.cmd.doc) {
        return;
      }
      match a.cmd.doc
      case Malformed(_) =>
      case Request(requested, _) =>
        lastCmd := Some(a.cmd.doc);
        ApplyRequest(requested);
    }

    method RetryRestore()
      requires Valid()
      modifies this, smc
      ensures View() == AutoRestoreRetry(old(View()), smc.env)
    {
      if !autoRestorePending {
        return;
      }
      var fan := Issue(ReadFan(AtRetry));
      if !(fan.readable && fan.mode == Auto) {
        var a := Issue(SetMode(Auto, AtRetry));
        if !a.verified {
          return;
        }
      }
      autoRestorePending := false;
      manualArmed := false;
      lastWritten := None;
      stallPolls := 0;
      offTargetPolls := 0;
    }

    method StepController(readings: Readings) returns (d: Decision)
      requires Valid()
      modifies controller
      ensures (View(), d) == ControllerStep(setup, old(View()), readings)
    {
      if monitorOnly || mode == ObserveMode {
        d := controller.ObserveStep(readings);
      } else {
        match mode
        case CurveMode => d := controller.CurveStep(readings);
        case HoldMode(rpm) => d := controller.HoldStep(readings, rpm);
      }
    }

    method Perform(d: Decision) returns (applied: Option<nat>)
      requires Valid()
      modifies this, smc
      ensures (View(), applied) == Act(setup, old(View()), d, smc.env)
    {
      if monitorOnly {
        return None;
      }
      match d
      case Observe =>
        return None;
      case ReturnToAuto =>
        if manualArmed {
          var a := Issue(SetMode(Auto, AtAct));
          if a.verified {
            manualArmed := false;
            lastWritten := None;
          } else {
            CountFailure();
          }
        }
        return None;
      case SetSpeed(rpm) =>
        applied := WriteTarget(rpm);
      case EscalateMax =>
        applied := WriteTarget(setup.curve.maxRpm);
    }

    method WriteTarget(rpm: nat) returns (applied: Option<nat>)
      requires Valid()
      modifies this, smc
      ensures (View(), applied) == WriteControlled(setup, old(View()), rpm, smc.env)
    {
      if !manualArmed {
        var taken := TakeFan(AtAct);
        if !taken {
          return None;
        }
      }
      var target := Clamp(rpm, setup.hwMin, setup.hwMax);
      if lastWritten == Some(target) {
        return None;
      }
      var a := Issue(WriteSpeed(target, AtAct));
      if a.verified {
        lastWritten := Some(target);
        return Some(target);
      }
      CountFailure();
      return None;
    }

    method CheckStall(prev: Option<nat>, rpm: nat, written: nat) returns (fired: bool)
      requires Valid()
      modifies this, smc
      ensures (View(), fired) == StallCheck(old(View()), prev, rpm, written, smc.env)
    {
      if OffTarget(written, rpm) {
        offTargetPolls := offTargetPolls + 1;
        if Moved(prev, rpm) {
          stallPolls := 0;
        } else {
          stallPolls := stallPolls + 1;
          if stallPolls >= STALL_POLLS {
            stallPolls := 0;
            offTargetPolls := 0;
            FallBack(OnStall);
            return true;
          }
        }
      } else {
        stallPolls := 0;
        offTargetPolls := 0;
      }
      return false;
    }

    method WriteAgain(written: nat) returns (failed: bool)
      requires Valid()
      modifies this, smc
      ensures (View(), failed) == Reassert(setup, old(View()), written, smc.env)
    {
      var target := Clamp(written, setup.hwMin, setup.hwMax);
      var a := Issue(WriteSpeed(target, AtL1));
      if a.verified {
        lastWritten := Some(target);
        return false;
      }
      CountFailure();
      return true;
    }

    /** A healthy poll with a live written speed clears the strike counter. */
    method ClearStrikes()
      requires Valid()
      modifies this, smc
      ensures View() == Note(old(View()).(writeFailures := 0), Healthy, smc.env)
    {
      writeFailures := 0;
      Record(Healthy);
    }

    method VerifyTracking(prev: Option<nat>, rpm: nat, applied: Option<nat>, modeFailed: bool) returns (ok: bool)
      requires Valid()
      modifies this, smc
      ensures (View(), ok) == L1Track(setup, old(View()), prev, rpm, applied, modeFailed, smc.env)
    {
      var failed := modeFailed;
      if lastWritten.Some? {
        var written := lastWritten.value;
        if !monitorOnly && OffTarget(written, rpm) && applied.None? {
          var failedAgain := WriteAgain(written);
          failed := failed || failedAgain;
        }
        var stalled := CheckStall(prev, rpm, written);
        if stalled {
          return false;
        }
      }
      if failed {
        return false;
      }
      if lastWritten.Some? {
        ClearStrikes();
      }
      return true;
    }

    method VerifyFan(applied: Option<nat>) returns (ok: bool)
      requires Valid()
      modifies this, smc
      ensures (View(), ok) == L1Poll(setup, old(View()), applied, smc.env)
    {
      var fan := Issue(ReadFan(AtL1));
      if !fan.readable {
        CountFailure();
        return false;
      }
      var prev := prevActual;
      prevActual := Some(fan.rpm);
      if !manualArmed {
        stallPolls := 0;
        offTargetPolls := 0;
        return true;
      }
      if autoRestorePending {
        return true;
      }
      var held := true;
      if fan.mode != Manual {
        held := TakeFan(AtL1);
      }
      ok := VerifyTracking(prev, fan.rpm, applied, !held);
    }

    /** The start of a poll: ping, command file, pending restore. */
    method Begin()
      requires Valid()
      modifies this, smc
      ensures View() == Prepare(old(View()), smc.env)
    {
      Record(Ping);
      ReadCommand();
      RetryRestore();
    }

    /** Sensors and controller. */
    method SenseAndDecide() returns (d: Decision)
      requires Valid()
      modifies smc, controller
      ensures (View(), d) == Decide(setup, old(View()), smc.env)
    {
      var sensed := Issue(ReadSensors);
      d := StepController(if sensed.readable then ScreenAll(sensed.readings) else []);
    }

    /** Exactly one poll. */
    method Poll() returns (report: Report)
      requires Valid()
      modifies this, smc, controller
      ensures (View(), report) == StepOnce(setup, old(View()), smc.env)
    {
      Begin();
      var d := SenseAndDecide();
      var applied := Perform(d);
      var l1Ok := VerifyFan(applied);
      var verified := !monitorOnly && l1Ok;
      Record(Ping);
      report := Report(mode, controller.lastTEff, d, applied, verified);
    }

    method DegradeAtStartup()
      requires Valid()
      modifies this
      ensures View() == DegradeStartup(old(View()))
    {
      LatchOff();
      mode := ObserveMode;
      manualArmed := false;
      autoRestorePending := false;
    }

    method ReconcileStaleState(inherited: Answer)
      requires Valid()
      modifies this, smc
      ensures View() == Reconcile(old(View()), inherited, smc.env)
    {
      if !inherited.readable {
        if mode != ObserveMode {
          DegradeAtStartup();
        }
        return;
      }
      if inherited.mode == Auto {
        return;
      }
      var a := Issue(SetMode(Auto, AtStartup));
      if a.verified {
        manualArmed := false;
        lastWritten := None;
      } else {
        DegradeAtStartup();
      }
    }

    method StartUp()
      requires Valid()
      modifies this, smc
      ensures View() == Startup(old(View()), smc.env)
    {
      var inherited := Issue(ReadFan(AtStartup));
      var probe := Issue(Probe);
      l2Absent := !probe.verified;
      if mode != ObserveMode && l2Absent {
        mode := ObserveMode;
      }
      ReconcileStaleState(inherited);
    }

    /** The daemon's loop, followed for `turns` turns. */
    method Loop(turns: nat)
      requires Valid()
      modifies this, smc, controller
      ensures View() == Run(setup, old(View()), smc.env, turns)
    {
      for i := 0 to turns
        invariant View() == Run(setup, old(View()), smc.env, i)
      {
        var _ := Poll();
        Record(Nap(setup.intervalS * 1000));
      }
    }
  }
}
