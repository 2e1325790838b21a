/** The log is a history: every step only adds to it. */
module Growth {
  import opened Basics
  import opened Policy
  import opened Smc
  import opened Machine

  lemma FailGrows(s: Sup, env: Env)
    ensures s.log <= FailWrite(s, env).log
  {}

  lemma EnterManualGrows(s: Sup, site: Site, env: Env)
    ensures s.log <= EnterManual(s, site, env).0.log
  {
    hide FailWrite;
    FailGrows(Ask(s, SetMode(Manual, site), env).0, env);
  }

  lemma ApplyModeGrows(s: Sup, requested: RunMode, env: Env)
    ensures s.log <= ApplyMode(s, requested, env).log
  {
    hide FailWrite;
    FailGrows(Ask(s, SetMode(Auto, AtCommand), env).0.(restorePending := true), env);
  }

  lemma RetryGrows(s: Sup, env: Env)
    ensures s.log <= AutoRestoreRetry(s, env).log
  {}

  lemma PrepareGrows(s: Sup, env: Env)
    ensures Ask(s, Ping, env).0.log <= Prepare(s, env).log
  {
    hide ApplyMode;
    hide AutoRestoreRetry;
    var p := Note(s, Ping, env);
    var (u, a) := Ask(p, ReadCmd, env);
    if Fresh(u, a.cmd) { ApplyModeGrows(u.(lastCmd := Some(a.cmd.doc)), a.cmd.doc.mode, env); }
    RetryGrows(ApplyCmdFile(p, env), env);
  }

  lemma WriteGrows(c: Setup, s: Sup, rpm: nat, env: Env)
    requires c.Ok()
    ensures s.log <= WriteControlled(c, s, rpm, env).0.log
  {
    hide EnterManual;
    hide FailWrite;
    EnterManualGrows(s, AtAct, env);
    var t := if s.manualArmed then s else EnterManual(s, AtAct, env).0;
    FailGrows(Ask(t, WriteSpeed(Clamp(rpm, c.hwMin, c.hwMax), AtAct), env).0, env);
  }

  lemma ActGrows(c: Setup, s: Sup, d: Decision, env: Env)
    requires c.Ok()
    ensures s.log <= Act(c, s, d, env).0.log
  {
    hide WriteControlled;
    hide FailWrite;
    match d
    case SetSpeed(rpm) => WriteGrows(c, s, rpm, env);
    case EscalateMax => WriteGrows(c, s, c.curve.maxRpm, env);
    case ReturnToAuto => FailGrows(Ask(s, SetMode(Auto, AtAct), env).0, env);
    case Observe =>
  }

  lemma ReassertGrows(c: Setup, s: Sup, written: nat, env: Env)
    requires c.Ok()
    ensures s.log <= Reassert(c, s, written, env).0.log
  {
    hide FailWrite;
    FailGrows(Ask(s, WriteSpeed(Clamp(written, c.hwMin, c.hwMax), AtL1), env).0, env);
  }

  lemma StallGrows(s: Sup, prev: Option<nat>, rpm: nat, written: nat, env: Env)
    ensures s.log <= StallCheck(s, prev, rpm, written, env).0.log
  {
    hide OffTarget;
    hide Moved;
  }

  lemma TrackGrows(c: Setup, s: Sup, prev: Option<nat>, rpm: nat, applied: Option<nat>, failed: bool, env: Env)
    requires c.Ok()
    ensures s.log <= L1Track(c, s, prev, rpm, applied, failed, env).0.log
  {
    hide Reassert;
    hide StallCheck;
    hide OffTarget;
    if s.lastWritten.Some? {
      var written := s.lastWritten.value;
      ReassertGrows(c, s, written, env);
      var t := if !s.monitorOnly && OffTarget(written, rpm) && applied.None? then Reassert(c, s, written, env).0 else s;
      StallGrows(t, prev, rpm, written, env);
    }
  }

  lemma L1Grows(c: Setup, s: Sup, applied: Option<nat>, env: Env)
    requires c.Ok()
    ensures s.log <= L1Poll(c, s, applied, env).0.log
  {
    hide FailWrite;
    hide EnterManual;
    hide L1Track;
    var (t, fan) := Ask(s, ReadFan(AtL1), env);
    FailGrows(t, env);
    var u := t.(prevActual := Some(fan.rpm));
    EnterManualGrows(u, AtL1, env);
    var (v, held) := if fan.mode != Manual then EnterManual(u, AtL1, env) else (u, true);
    TrackGrows(c, v, s.prevActual, fan.rpm, applied, !held, env);
  }

  lemma DecideGrows(c: Setup, s: Sup, env: Env)
    requires c.Ok()
    ensures s.log <= Decide(c, s, env).0.log
  {}

  lemma TurnGrows(c: Setup, s: Sup, env: Env)
    requires c.Ok()
    ensures s.log < Turn(c, s, env).log && Prepare(s, env).log <= Turn(c, s, env).log
  {
    hide Prepare;
    hide Act;
    hide L1Poll;
    hide Decide;
    PrepareGrows(s, env);
    DecideGrows(c, Prepare(s, env), env);
    var (t, d) := Decide(c, Prepare(s, env), env);
    ActGrows(c, t, d, env);
    var (u, applied) := Act(c, t, d, env);
    L1Grows(c, u, applied, env);
  }

  /** A run never rewrites its past. */
  lemma {:induction false} RunGrows(c: Setup, s: Sup, env: Env, n: nat)
    requires c.Ok()
    ensures s.log <= Run(c, s, env, n).log
  {
    hide Turn;
    if n > 0 {
      RunGrows(c, s, env, n - 1);
      TurnGrows(c, Run(c, s, env, n - 1), env);
    }
  }
}
