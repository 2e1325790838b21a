/** What holds between any two steps of any run, whatever the environment answers. */
module Invariants {
  import opened Basics
  import opened Limits
  import opened Policy
  import opened Smc
  import opened Machine

  ghost predicate Inv(c: Setup, s: Sup)
    requires c.Ok()
  {
    // Passive means passive: an owned fan that nobody controls is being released.
    && (s.Passive() && s.manualArmed ==> s.restorePending)
    // A written value is only remembered while the fan is owned, and is in the hardware band.
    && (s.lastWritten.Some? ==> s.manualArmed && c.hwMin <= s.lastWritten.value <= c.hwMax)
    && s.writeFailures < WRITE_FAIL_FALLBACK
    && s.stallPolls < STALL_POLLS
    && s.stallPolls <= s.offTargetPolls
    // Without a proven restore path there is no control.
    && (s.l2Absent ==> s.mode == ObserveMode && !s.manualArmed)
    && c.curve.minRpm <= s.track.slew <= c.curve.maxRpm
    && s.track.lossStreak < SENSOR_LOSS_POLLS
  }

  lemma StartupEstablishes(c: Setup, start: RunMode, env: Env)
    requires c.Ok()
    ensures Inv(c, Startup(NewSup(c, start), env))
  {}

  /** One more strike keeps the invariant, and never forgets a pending release of an owned fan. */
  lemma FailKeeps(c: Setup, s: Sup, env: Env)
    requires c.Ok() && Inv(c, s)
    ensures var t := FailWrite(s, env);
            Inv(c, t) && t.mode == s.mode && (s.restorePending && t.manualArmed ==> t.restorePending)
  {}

  lemma EnterManualKeeps(c: Setup, s: Sup, site: Site, env: Env)
    requires c.Ok() && Inv(c, s) && !s.Passive()
    ensures var (t, held) := EnterManual(s, site, env);
            && Inv(c, t)
            && (held ==> t == s.(manualArmed := true, log := t.log))
            && (t.lastWritten.Some? ==> t.lastWritten == s.lastWritten)
  {
    FailKeeps(c, Ask(s, SetMode(Manual, site), env).0, env);
  }

  lemma ApplyModeKeeps(c: Setup, s: Sup, requested: RunMode, env: Env)
    requires c.Ok() && Inv(c, s)
    ensures Inv(c, ApplyMode(s, requested, env))
  {
    var u := Ask(s, SetMode(Auto, AtCommand), env).0;
    FailKeeps(c, u.(restorePending := true), env);
    hide FailWrite;
  }

  lemma CommandKeeps(c: Setup, s: Sup, env: Env)
    requires c.Ok() && Inv(c, s)
    ensures Inv(c, ApplyCmdFile(s, env))
  {
    hide ApplyMode;
    var (t, a) := Ask(s, ReadCmd, env);
    if Fresh(t, a.cmd) { ApplyModeKeeps(c, t.(lastCmd := Some(a.cmd.doc)), a.cmd.doc.mode, env); }
  }

  lemma RetryKeeps(c: Setup, s: Sup, env: Env)
    requires c.Ok() && Inv(c, s)
    ensures Inv(c, AutoRestoreRetry(s, env))
  {}

  lemma PrepareKeeps(c: Setup, s: Sup, env: Env)
    requires c.Ok() && Inv(c, s)
    ensures Inv(c, Prepare(s, env))
  {
    hide ApplyCmdFile;
    hide AutoRestoreRetry;
    var t := Note(s, Ping, env);
    CommandKeeps(c, t, env);
    RetryKeeps(c, ApplyCmdFile(t, env), env);
  }

  /** The controller moves only its own state, and a passive supervisor decides nothing. */
  lemma DecideKeeps(c: Setup, s: Sup, env: Env)
    requires c.Ok() && Inv(c, s)
    ensures var (t, d) := Decide(c, s, env);
            && Inv(c, t)
            && (t.Passive() ==> d == Decision.Observe)
            && t == s.(track := t.track, log := t.log)
            && t.log == s.log + [Event(ReadSensors, env(|s.log|))]
  {
    var (t, readings) := Sense(s, env);
    var a := Absorb(c.curve, s.track, readings);
    if Hottest(readings).Some? { TargetInBand(c.curve, a, Hottest(readings).value); }
  }

  lemma WriteKeeps(c: Setup, s: Sup, rpm: nat, env: Env)
    requires c.Ok() && Inv(c, s) && !s.Passive()
    ensures var (t, applied) := WriteControlled(c, s, rpm, env);
            Inv(c, t) && (applied.Some? ==> t.lastWritten == applied)
  {
    hide EnterManual;
    hide FailWrite;
    if !s.manualArmed { EnterManualKeeps(c, s, AtAct, env); }
    var (t, armed) := if s.manualArmed then (s, true) else EnterManual(s, AtAct, env);
    FailKeeps(c, Ask(t, WriteSpeed(Clamp(rpm, c.hwMin, c.hwMax), AtAct), env).0, env);
  }

  lemma ActKeeps(c: Setup, s: Sup, d: Decision, env: Env)
    requires c.Ok() && Inv(c, s) && (s.Passive() ==> d == Decision.Observe)
    ensures var (t, applied) := Act(c, s, d, env);
            Inv(c, t) && (applied.Some? ==> t.lastWritten == applied)
  {
    hide WriteControlled;
    hide FailWrite;
    match d
    case SetSpeed(rpm) => WriteKeeps(c, s, rpm, env);
    case EscalateMax => WriteKeeps(c, s, c.curve.maxRpm, env);
    case ReturnToAuto => FailKeeps(c, Ask(s, SetMode(Auto, AtAct), env).0, env);
    case Observe =>
  }

  lemma StallKeeps(c: Setup, s: Sup, prev: Option<nat>, rpm: nat, written: nat, env: Env)
    requires c.Ok() && Inv(c, s)
    ensures Inv(c, StallCheck(s, prev, rpm, written, env).0)
  {
    hide OffTarget;
    hide Moved;
  }

  lemma ReassertKeeps(c: Setup, s: Sup, written: nat, env: Env)
    requires c.Ok() && Inv(c, s) && s.lastWritten == Some(written)
    ensures Inv(c, Reassert(c, s, written, env).0)
  {
    hide FailWrite;
    FailKeeps(c, Ask(s, WriteSpeed(Clamp(written, c.hwMin, c.hwMax), AtL1), env).0, env);
  }

  lemma TrackKeeps(c: Setup, s: Sup, prev: Option<nat>, rpm: nat, applied: Option<nat>, failed: bool, env: Env)
    requires c.Ok() && Inv(c, s)
    ensures Inv(c, L1Track(c, s, prev, rpm, applied, failed, env).0)
  {
    hide Reassert;
    hide StallCheck;
    if s.lastWritten.Some? {
      var written := s.lastWritten.value;
      ReassertKeeps(c, s, written, env);
      var t := if !s.monitorOnly && OffTarget(written, rpm) && applied.None? then Reassert(c, s, written, env).0 else s;
      StallKeeps(c, t, prev, rpm, written, env);
    }
  }

  lemma L1Keeps(c: Setup, s: Sup, applied: Option<nat>, env: Env)
    requires c.Ok() && Inv(c, s)
    ensures Inv(c, L1Poll(c, s, applied, env).0)
  {
    hide FailWrite;
    hide EnterManual;
    hide L1Track;
    var (t, fan) := Ask(s, ReadFan(AtL1), env);
    FailKeeps(c, t, env);
    var u := t.(prevActual := Some(fan.rpm));
    if fan.readable && u.manualArmed && !u.restorePending {
      EnterManualKeeps(c, u, AtL1, env);
      var (v, held) := if fan.mode != Manual then EnterManual(u, AtL1, env) else (u, true);
      TrackKeeps(c, v, s.prevActual, fan.rpm, applied, !held, env);
    }
  }

  lemma StepKeeps(c: Setup, s: Sup, env: Env)
    requires c.Ok() && Inv(c, s)
    ensures Inv(c, StepOnce(c, s, env).0)
  {
    hide Prepare;
    hide Decide;
    hide Act;
    hide L1Poll;
    PrepareKeeps(c, s, env);
    var p := Prepare(s, env);
    DecideKeeps(c, p, env);
    var (t, d) := Decide(c, p, env);
    ActKeeps(c, t, d, env);
    var (u, applied) := Act(c, t, d, env);
    L1Keeps(c, u, applied, env);
  }

  lemma {:induction false} RunKeeps(c: Setup, s: Sup, env: Env, n: nat)
    requires c.Ok() && Inv(c, s)
    ensures Inv(c, Run(c, s, env, n))
  {
    hide StepOnce;
    if n > 0 {
      RunKeeps(c, s, env, n - 1);
      StepKeeps(c, Run(c, s, env, n - 1), env);
    }
  }

  /** The invariant of every run of the daemon, under every environment. */
  lemma DaemonInvariant(c: Setup, start: RunMode, env: Env, n: nat)
    requires c.Ok()
    ensures Inv(c, Daemon(c, start, env, n))
  {
    hide Startup;
    StartupEstablishes(c, start, env);
    RunKeeps(c, Startup(NewSup(c, start), env), env, n);
  }
}
