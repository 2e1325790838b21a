/** The two windows L1 keeps, motionless polls and polls off target, exactly. */
module Windows {
  import opened Basics
  import opened Limits
  import opened Policy
  import opened Smc
  import opened Machine
  import opened Invariants
  import opened Ladder
  import opened Stall

  /** Motionless polls and off-target polls. */
  function Window(s: Sup): (nat, nat) { (s.stallPolls, s.offTargetPolls) }

  lemma FailWindow(s: Sup, env: Env)
    ensures Window(FailWrite(s, env)) == if s.writeFailures + 1 >= WRITE_FAIL_FALLBACK then (0, 0) else Window(s)
  {}

  lemma EnterManualWindow(s: Sup, site: Site, env: Env)
    ensures var (t, held) := EnterManual(s, site, env);
            && (held <==> env(|s.log|).verified)
            && Window(t) == (if !held && s.writeFailures + 1 >= WRITE_FAIL_FALLBACK then (0, 0) else Window(s))
            && t.lastWritten == (if !held && s.writeFailures + 1 >= WRITE_FAIL_FALLBACK then None else s.lastWritten)
            && (t.lastWritten.Some? ==> t.writeFailures == s.writeFailures + (if held then 0 else 1)
                                        && t.monitorOnly == s.monitorOnly && |t.log| == |s.log| + 1)
  {}

  lemma ReassertWindow(c: Setup, s: Sup, written: nat, env: Env)
    requires c.Ok()
    ensures var t := Reassert(c, s, written, env).0;
            Window(t) == if !env(|s.log|).verified && s.writeFailures + 1 >= WRITE_FAIL_FALLBACK then (0, 0) else Window(s)
  {
    hide FailWrite;
    FailWindow(Note(s, WriteSpeed(Clamp(written, c.hwMin, c.hwMax), AtL1), env), env);
  }

  /** What a reading makes of the windows: on target closes both, motion closes the first, a full
      first one falls back and closes both. */
  function Judged(window: (nat, nat), written: nat, prev: Option<nat>, rpm: nat): (nat, nat) {
    if written - 150 <= rpm <= written + 150 then (0, 0)
    else if prev.Some? && !(prev.value - 50 <= rpm <= prev.value + 50) then (0, window.1 + 1)
    else if window.0 + 1 >= 10 then (0, 0)
    else (window.0 + 1, window.1 + 1)
  }

  lemma CheckWindow(s: Sup, prev: Option<nat>, rpm: nat, written: nat, env: Env)
    ensures Window(StallCheck(s, prev, rpm, written, env).0) == Judged(Window(s), written, prev, rpm)
  {
    OnTargetMeans(written, rpm);
    StillMeans(prev, rpm);
    hide OffTarget;
    hide Moved;
  }

  lemma TrackWindow(c: Setup, s: Sup, prev: Option<nat>, rpm: nat, applied: Option<nat>, failed: bool, env: Env)
    requires c.Ok() && !s.monitorOnly && s.lastWritten.Some?
    ensures var written := s.lastWritten.value;
            var spent := applied.None? && !env(|s.log|).verified && s.writeFailures + 1 >= WRITE_FAIL_FALLBACK;
            Window(L1Track(c, s, prev, rpm, applied, failed, env).0)
              == Judged(if spent then (0, 0) else Window(s), written, prev, rpm)
  {
    hide Reassert;
    hide StallCheck;
    hide OffTarget;
    var written := s.lastWritten.value;
    OnTargetMeans(written, rpm);
    ReassertWindow(c, s, written, env);
    var t := if OffTarget(written, rpm) && applied.None? then Reassert(c, s, written, env).0 else s;
    CheckWindow(t, prev, rpm, written, env);
  }

  /** One L1 pass, exactly. A failed read keeps the windows, or closes them as the third strike. A fan
      that is not owned closes them; one that is being released, or has no remembered speed, keeps
      them unless retaking it is the third strike. Otherwise the reading is judged, by fresh windows
      if L1's own re-assert has just fallen back. */
  lemma L1WindowIsExact(c: Setup, s: Sup, applied: Option<nat>, env: Env)
    requires c.Ok() && Inv(c, s)
    ensures var t, n := L1Poll(c, s, applied, env).0, |s.log|;
            var fan, third := env(n), s.writeFailures + 1 >= WRITE_FAIL_FALLBACK;
            var retaken := fan.mode == Manual || env(n + 1).verified || !third;
            Window(t) ==
              if !fan.readable then if third then (0, 0) else Window(s)
              else if !s.manualArmed then (0, 0)
              else if s.restorePending then Window(s)
              else if !retaken then (0, 0)
              else if s.lastWritten.None? then Window(s)
              else Judged(if StrikesFirst(s, applied, env) then (0, 0) else Window(s), s.lastWritten.value, s.prevActual, fan.rpm)
  {
    hide FailWrite;
    hide EnterManual;
    hide L1Track;
    var (t, fan) := Ask(s, ReadFan(AtL1), env);
    FailWindow(t, env);
    var u := t.(prevActual := Some(fan.rpm));
    if fan.readable && u.manualArmed && !u.restorePending {
      EnterManualWindow(u, AtL1, env);
      var (v, held) := if fan.mode != Manual then EnterManual(u, AtL1, env) else (u, true);
      if v.lastWritten.Some? {
        TrackWindow(c, v, s.prevActual, fan.rpm, applied, !held, env);
      } else {
        NothingToTrack(c, v, s.prevActual, fan.rpm, applied, !held, env);
      }
    }
  }

  // ---- up to L1 ----

  lemma CommandWindow(s: Sup, env: Env)
    ensures Window(ApplyCmdFile(s, env)) ==
            if Fallbacks(ApplyCmdFile(s, env).log) > Fallbacks(s.log) then (0, 0) else Window(s)
  {
    hide Strikes;
    hide Rungs;
    hide Fallbacks;
    AskReads(s, ReadCmd, env);
    var (u, a) := Ask(s, ReadCmd, env);
    if Fresh(u, a.cmd) { ApplyModeWindow(u.(lastCmd := Some(a.cmd.doc)), a.cmd.doc.mode, env); }
    hide ApplyMode;
  }

  lemma FailWindowFalls(s: Sup, env: Env)
    ensures var t := FailWrite(s, env);
            && Fallbacks(t.log) >= Fallbacks(s.log)
            && Window(t) == if Fallbacks(t.log) > Fallbacks(s.log) then (0, 0) else Window(s)
  {
    hide Strikes;
    hide Rungs;
    hide Fallbacks;
    AskReads(s, SetMode(Auto, OnThirdStrike), env);
  }

  lemma ApplyModeWindow(s: Sup, requested: RunMode, env: Env)
    ensures var t := ApplyMode(s, requested, env);
            Window(t) == if Fallbacks(t.log) > Fallbacks(s.log) then (0, 0) else Window(s)
  {
    hide Strikes;
    hide Rungs;
    hide Fallbacks;
    hide FailWrite;
    AskReads(s, Rearmed, env);
    AskReads(s, SetMode(Auto, AtCommand), env);
    FailWindowFalls(Note(s, SetMode(Auto, AtCommand), env).(restorePending := true), env);
  }

  lemma ActWindow(c: Setup, s: Sup, d: Decision, env: Env)
    requires c.Ok()
    ensures var t := Act(c, s, d, env).0;
            && Fallbacks(t.log) >= Fallbacks(s.log)
            && Window(t) == if Fallbacks(t.log) > Fallbacks(s.log) then (0, 0) else Window(s)
  {
    hide Strikes;
    hide Rungs;
    hide Fallbacks;
    hide FailWrite;
    hide WriteControlled;
    match d
    case SetSpeed(rpm) => WriteWindow(c, s, rpm, env);
    case EscalateMax => WriteWindow(c, s, c.curve.maxRpm, env);
    case ReturnToAuto =>
      AskReads(s, SetMode(Auto, AtAct), env);
      FailWindowFalls(Note(s, SetMode(Auto, AtAct), env), env);
    case Observe =>
  }

  lemma WriteWindow(c: Setup, s: Sup, rpm: nat, env: Env)
    requires c.Ok()
    ensures var t := WriteControlled(c, s, rpm, env).0;
            && Fallbacks(t.log) >= Fallbacks(s.log)
            && Window(t) == if Fallbacks(t.log) > Fallbacks(s.log) then (0, 0) else Window(s)
  {
    hide Strikes;
    hide Rungs;
    hide Fallbacks;
    hide FailWrite;
    AskReads(s, SetMode(Manual, AtAct), env);
    FailWindowFalls(Note(s, SetMode(Manual, AtAct), env), env);
    var (t, armed) := if s.manualArmed then (s, true) else EnterManual(s, AtAct, env);
    var call := WriteSpeed(Clamp(rpm, c.hwMin, c.hwMax), AtAct);
    AskReads(t, call, env);
    FailWindowFalls(Note(t, call, env), env);
  }

  /** A retry that releases the fan. */
  predicate Releases(s: Sup, env: Env) {
    var q := ApplyCmdFile(Note(s, Ping, env), env);
    q.restorePending && !AutoRestoreRetry(q, env).restorePending
  }

  /** Before L1, the windows are closed exactly by a fallback or a retry that releases the fan. */
  lemma EntryWindowIsExact(c: Setup, s: Sup, env: Env)
    requires c.Ok() && Inv(c, s) && LadderInv(s)
    ensures var u := L1Entry(c, s, env).0;
            Window(u) == if Fallbacks(u.log) > Fallbacks(s.log) || Releases(s, env) then (0, 0) else Window(s)
  {
    hide Strikes;
    hide Rungs;
    hide Fallbacks;
    hide ApplyCmdFile;
    hide Act;
    AskReads(s, Ping, env);
    var p := Note(s, Ping, env);
    CommandWindow(p, env);
    CommandFalls(p, env);
    var q := ApplyCmdFile(p, env);
    RetryWindow(q, env);
    hide AutoRestoreRetry;
    var r := Prepare(s, env);
    AskReads(r, ReadSensors, env);
    DecideWindow(c, r, env);
    hide Decide;
    var (t, d) := Decide(c, r, env);
    ActWindow(c, t, d, env);
  }

  lemma CommandFalls(s: Sup, env: Env)
    ensures Fallbacks(ApplyCmdFile(s, env).log) >= Fallbacks(s.log)
  {
    hide Strikes;
    hide Rungs;
    hide Fallbacks;
    AskReads(s, ReadCmd, env);
    var (u, a) := Ask(s, ReadCmd, env);
    var v := if Fresh(u, a.cmd) then u.(lastCmd := Some(a.cmd.doc)) else u;
    AskReads(v, Rearmed, env);
    AskReads(v, SetMode(Auto, AtCommand), env);
    FailWindowFalls(Note(v, SetMode(Auto, AtCommand), env).(restorePending := true), env);
    hide FailWrite;
  }

  lemma RetryWindow(s: Sup, env: Env)
    ensures var t := AutoRestoreRetry(s, env);
            && Fallbacks(t.log) == Fallbacks(s.log)
            && Window(t) == if s.restorePending && !t.restorePending then (0, 0) else Window(s)
  {
    hide Strikes;
    hide Rungs;
    hide Fallbacks;
    AskReads(s, ReadFan(AtRetry), env);
    AskReads(Note(s, ReadFan(AtRetry), env), SetMode(Auto, AtRetry), env);
  }

  lemma DecideWindow(c: Setup, s: Sup, env: Env)
    requires c.Ok()
    ensures var t := Decide(c, s, env).0;
            Window(t) == Window(s) && Fallbacks(t.log) == Fallbacks(s.log)
  {
    hide Strikes;
    hide Rungs;
    hide Fallbacks;
    AskReads(s, ReadSensors, env);
  }
}
