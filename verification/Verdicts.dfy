/** What a poll's verdict and its hardware writes mean, exactly. */
module Verdicts {
  import opened Basics
  import opened Limits
  import opened Policy
  import opened Smc
  import opened Machine
  import opened Invariants
  import opened Ladder
  import opened Ownership
  import opened Growth
  import opened Control
  import opened Stall

  // ---- L1's verdict ----

  /** Failing calls that count, over the whole log. */
  function Failures(log: seq<Event>): nat {
    if log == [] then 0 else Failures(log[..|log| - 1]) + if Counted(log[|log| - 1]) then 1 else 0
  }

  /** How often a healthy poll cleared the strike counter. */
  function Clearings(log: seq<Event>): nat {
    if log == [] then 0 else Clearings(log[..|log| - 1]) + if log[|log| - 1].call == Healthy then 1 else 0
  }

  /** Calls that write to the hardware. */
  predicate IsWrite(call: Call) { call.SetMode? || call.WriteSpeed? || call.Probe? }

  function Writes(log: seq<Event>): nat {
    if log == [] then 0 else Writes(log[..|log| - 1]) + if IsWrite(log[|log| - 1].call) then 1 else 0
  }

  lemma AskCounts(s: Sup, call: Call, env: Env)
    ensures var t := Ask(s, call, env).0;
            var e := Event(call, env(|s.log|));
            && Failures(t.log) == Failures(s.log) + (if Counted(e) then 1 else 0)
            && Fallbacks(t.log) == Fallbacks(s.log) + (if IsFallback(e) then 1 else 0)
            && Clearings(t.log) == Clearings(s.log) + (if call == Healthy then 1 else 0)
            && Writes(t.log) == Writes(s.log) + (if IsWrite(call) then 1 else 0)
  {
    assert (s.log + [Event(call, env(|s.log|))])[..|s.log|] == s.log;
  }

  /** From `s` to `t`: so many failures counted, fallbacks only if some step went wrong. */
  ghost predicate Counts(s: Sup, t: Sup, failures: nat, fine: bool) {
    && Failures(t.log) == Failures(s.log) + failures
    && Fallbacks(t.log) >= Fallbacks(s.log)
    && (fine ==> Fallbacks(t.log) == Fallbacks(s.log))
    && Clearings(t.log) == Clearings(s.log)
  }

  lemma FailIsCounted(s: Sup, env: Env)
    ensures Counts(s, FailWrite(s, env), 0, s.writeFailures + 1 < WRITE_FAIL_FALLBACK)
  {
    hide Failures;
    hide Fallbacks;
    hide Clearings;
    hide Writes;
    AskCounts(s, SetMode(Auto, OnThirdStrike), env);
  }

  lemma EnterManualIsCounted(s: Sup, env: Env)
    ensures var (t, held) := EnterManual(s, AtL1, env);
            Counts(s, t, if held then 0 else 1, held)
  {
    hide Failures;
    hide Fallbacks;
    hide Clearings;
    hide Writes;
    hide FailWrite;
    AskCounts(s, SetMode(Manual, AtL1), env);
    FailIsCounted(Ask(s, SetMode(Manual, AtL1), env).0, env);
  }

  lemma ReassertIsCounted(c: Setup, s: Sup, written: nat, env: Env)
    requires c.Ok()
    ensures var (t, failed) := Reassert(c, s, written, env);
            Counts(s, t, if failed then 1 else 0, !failed)
  {
    hide Failures;
    hide Fallbacks;
    hide Clearings;
    hide Writes;
    hide FailWrite;
    var call := WriteSpeed(Clamp(written, c.hwMin, c.hwMax), AtL1);
    AskCounts(s, call, env);
    FailIsCounted(Ask(s, call, env).0, env);
  }

  lemma StallIsCounted(s: Sup, prev: Option<nat>, rpm: nat, written: nat, env: Env)
    ensures var (t, stalled) := StallCheck(s, prev, rpm, written, env);
            Counts(s, t, 0, !stalled) && (stalled ==> Fallbacks(t.log) > Fallbacks(s.log))
  {
    hide Failures;
    hide Fallbacks;
    hide Clearings;
    hide Writes;
    AskCounts(s, SetMode(Auto, OnStall), env);
  }

  lemma TrackIsCounted(c: Setup, s: Sup, prev: Option<nat>, rpm: nat, applied: Option<nat>, failed: bool, env: Env)
    requires c.Ok()
    ensures var (t, ok) := L1Track(c, s, prev, rpm, applied, failed, env);
            && Failures(t.log) >= Failures(s.log) && Fallbacks(t.log) >= Fallbacks(s.log)
            && (ok <==> !failed && Failures(t.log) == Failures(s.log) && Fallbacks(t.log) == Fallbacks(s.log))
            && Clearings(t.log) == Clearings(s.log) + if ok && s.lastWritten.Some? then 1 else 0
  {
    hide Failures;
    hide Fallbacks;
    hide Clearings;
    hide Writes;
    hide Reassert;
    hide StallCheck;
    hide OffTarget;
    if s.lastWritten.Some? {
      var written := s.lastWritten.value;
      ReassertIsCounted(c, s, written, env);
      var t := if !s.monitorOnly && OffTarget(written, rpm) && applied.None? then Reassert(c, s, written, env).0 else s;
      StallIsCounted(t, prev, rpm, written, env);
      var u := StallCheck(t, prev, rpm, written, env).0;
      AskCounts(u.(writeFailures := 0), Healthy, env);
    }
  }

  /** L1 reports a healthy poll exactly when none of its own calls failed in a way that counts and
      it did not fall back; and it clears the strike counter exactly when, besides, there was a
      live written speed on an owned fan to verify, never on a poll with nothing to look at. */
  lemma VerdictIsExact(c: Setup, s: Sup, applied: Option<nat>, env: Env)
    requires c.Ok() && Inv(c, s)
    ensures var (t, ok) := L1Poll(c, s, applied, env);
            && (ok <==> Failures(t.log) == Failures(s.log) && Fallbacks(t.log) == Fallbacks(s.log))
            && Clearings(t.log) == Clearings(s.log)
                 + if ok && s.manualArmed && !s.restorePending && s.lastWritten.Some? then 1 else 0
  {
    hide Failures;
    hide Fallbacks;
    hide Clearings;
    hide Writes;
    hide FailWrite;
    hide EnterManual;
    hide L1Track;
    AskCounts(s, ReadFan(AtL1), env);
    var (t, fan) := Ask(s, ReadFan(AtL1), env);
    FailIsCounted(t, env);
    var u := t.(prevActual := Some(fan.rpm));
    if fan.readable && u.manualArmed && !u.restorePending {
      EnterManualIsCounted(u, env);
      EnterManualKeeps(c, u, AtL1, env);
      var (v, held) := if fan.mode != Manual then EnterManual(u, AtL1, env) else (u, true);
      TrackIsCounted(c, v, s.prevActual, fan.rpm, applied, !held, env);
    }
  }

  // ---- when a poll writes to the hardware ----

  lemma FailWrites(s: Sup, env: Env)
    ensures Writes(FailWrite(s, env).log) == Writes(s.log) + if s.writeFailures + 1 >= WRITE_FAIL_FALLBACK then 1 else 0
  {
    hide Failures;
    hide Fallbacks;
    hide Clearings;
    hide Writes;
    AskCounts(s, SetMode(Auto, OnThirdStrike), env);
  }

  lemma EnterManualWrites(s: Sup, site: Site, env: Env)
    ensures Writes(EnterManual(s, site, env).0.log) > Writes(s.log)
  {
    hide Failures;
    hide Fallbacks;
    hide Clearings;
    hide Writes;
    hide FailWrite;
    AskCounts(s, SetMode(Manual, site), env);
    FailWrites(Ask(s, SetMode(Manual, site), env).0, env);
  }

  lemma ReassertWrites(c: Setup, s: Sup, written: nat, env: Env)
    requires c.Ok()
    ensures Writes(Reassert(c, s, written, env).0.log) > Writes(s.log)
  {
    hide Failures;
    hide Fallbacks;
    hide Clearings;
    hide Writes;
    hide FailWrite;
    var call := WriteSpeed(Clamp(written, c.hwMin, c.hwMax), AtL1);
    AskCounts(s, call, env);
    FailWrites(Ask(s, call, env).0, env);
  }

  lemma StallWrites(s: Sup, prev: Option<nat>, rpm: nat, written: nat, env: Env)
    ensures Writes(StallCheck(s, prev, rpm, written, env).0.log) >= Writes(s.log)
    ensures !OffTarget(written, rpm) ==> StallCheck(s, prev, rpm, written, env).0.log == s.log
  {
    hide Failures;
    hide Fallbacks;
    hide Clearings;
    hide Writes;
    AskCounts(s, SetMode(Auto, OnStall), env);
  }

  /** Verifying writes nothing exactly when there is nothing to repair. */
  lemma TrackWrites(c: Setup, s: Sup, prev: Option<nat>, rpm: nat, applied: Option<nat>, failed: bool, env: Env)
    requires c.Ok()
    ensures var t := L1Track(c, s, prev, rpm, applied, failed, env).0;
            && Writes(t.log) >= Writes(s.log)
            && (s.lastWritten.Some? && !s.monitorOnly && applied.None? ==>
                  (Writes(t.log) == Writes(s.log) <==> !OffTarget(s.lastWritten.value, rpm)))
  {
    hide Failures;
    hide Fallbacks;
    hide Clearings;
    hide Writes;
    hide Reassert;
    hide StallCheck;
    hide OffTarget;
    if s.lastWritten.Some? {
      var written := s.lastWritten.value;
      ReassertWrites(c, s, written, env);
      var t := if !s.monitorOnly && OffTarget(written, rpm) && applied.None? then Reassert(c, s, written, env).0 else s;
      StallWrites(t, prev, rpm, written, env);
      var u := StallCheck(t, prev, rpm, written, env).0;
      AskCounts(u.(writeFailures := 0), Healthy, env);
    }
  }

  lemma L1Writes(c: Setup, s: Sup, applied: Option<nat>, env: Env)
    requires c.Ok() && Inv(c, s)
    ensures var t, fan := L1Poll(c, s, applied, env).0, env(|s.log|);
            && Writes(t.log) >= Writes(s.log)
            && (s.manualArmed && !s.restorePending && s.lastWritten.Some? && applied.None? ==>
                  (Writes(t.log) == Writes(s.log) <==>
                     if fan.readable then fan.mode == Manual && s.lastWritten.value - 150 <= fan.rpm <= s.lastWritten.value + 150
                     else s.writeFailures + 1 < WRITE_FAIL_FALLBACK))
  {
    hide Failures;
    hide Fallbacks;
    hide Clearings;
    hide Writes;
    hide FailWrite;
    hide EnterManual;
    hide L1Track;
    hide OffTarget;
    AskCounts(s, ReadFan(AtL1), env);
    var (t, fan) := Ask(s, ReadFan(AtL1), env);
    FailWrites(t, env);
    var u := t.(prevActual := Some(fan.rpm));
    if fan.readable && u.manualArmed && !u.restorePending {
      EnterManualWrites(u, AtL1, env);
      if s.lastWritten.Some? { OnTargetMeans(s.lastWritten.value, fan.rpm); }
      var (v, held) := if fan.mode != Manual then EnterManual(u, AtL1, env) else (u, true);
      TrackWrites(c, v, s.prevActual, fan.rpm, applied, !held, env);
    }
  }

  /** Acting while in control writes nothing exactly when nothing was decided or the decided speed
      is already written, and then it changes nothing else either. */
  lemma ActWrites(c: Setup, s: Sup, d: Decision, env: Env)
    requires c.Ok() && !s.monitorOnly && s.manualArmed
    ensures var (t, applied) := Act(c, s, d, env);
            if d == Decision.Observe || (Target(c, d).Some? && Target(c, d) == s.lastWritten) then t == s && applied.None?
            else Writes(t.log) > Writes(s.log)
  {
    hide Failures;
    hide Fallbacks;
    hide Clearings;
    hide Writes;
    hide FailWrite;
    if Target(c, d).Some? {
      var call := WriteSpeed(Target(c, d).value, AtAct);
      AskCounts(s, call, env);
      FailWrites(Ask(s, call, env).0, env);
    }
    AskCounts(s, SetMode(Auto, AtAct), env);
    FailWrites(Ask(s, SetMode(Auto, AtAct), env).0, env);
  }

  /** A supervisor in control, with a written speed and no fresh command, leaves the hardware
      alone for a whole turn if and only if the decision asks for nothing new and its one fan read
      finds the fan in Manual and on target, or fails short of the third strike. Every other turn
      writes: no deviation goes unanswered and no healthy poll writes. */
  lemma SilentExactlyWhenHealthy(c: Setup, s: Sup, env: Env)
    requires c.Ok() && Inv(c, s) && !s.Passive() && s.manualArmed && !s.restorePending && s.lastWritten.Some?
    requires !Fresh(s, env(|s.log| + 1).cmd)
    ensures var d, fan := StepOnce(c, s, env).1.decision, env(|s.log| + 3);
            Writes(Turn(c, s, env).log) == Writes(s.log) <==>
              && (d == Decision.Observe || Target(c, d) == s.lastWritten)
              && if fan.readable then fan.mode == Manual && s.lastWritten.value - 150 <= fan.rpm <= s.lastWritten.value + 150
                 else s.writeFailures + 1 < WRITE_FAIL_FALLBACK
  {
    hide Failures;
    hide Fallbacks;
    hide Clearings;
    hide Writes;
    hide Act;
    hide L1Poll;
    hide OffTarget;
    hide ControllerStep;
    AskCounts(s, Ping, env);
    AskCounts(Note(s, Ping, env), ReadCmd, env);
    var p := Prepare(s, env);
    assert p == Note(Note(s, Ping, env), ReadCmd, env);
    PrepareKeeps(c, s, env);
    DecideKeeps(c, p, env);
    AskCounts(p, ReadSensors, env);
    DecideWrites(c, p, env);
    hide Prepare;
    hide Decide;
    var (t, d) := Decide(c, p, env);
    ActKeeps(c, t, d, env);
    ActWrites(c, t, d, env);
    var (u, applied) := Act(c, t, d, env);
    L1Writes(c, u, applied, env);
    AskCounts(L1Poll(c, u, applied, env).0, Ping, env);
    AskCounts(StepOnce(c, s, env).0, Nap(c.intervalS * 1000), env);
  }

  lemma DecideWrites(c: Setup, s: Sup, env: Env)
    requires c.Ok()
    ensures var t := Decide(c, s, env).0;
            && Writes(t.log) == Writes(s.log) && |t.log| == |s.log| + 1
            && t == s.(track := t.track, log := t.log)
  {
    hide Writes;
    AskCounts(s, ReadSensors, env);
  }

  // ---- the report ----

  lemma EntryKeeps(c: Setup, s: Sup, env: Env)
    requires c.Ok() && Inv(c, s)
    ensures Inv(c, L1Entry(c, s, env).0)
  {
    hide Prepare;
    hide Decide;
    hide Act;
    hide Inv;
    PrepareKeeps(c, s, env);
    DecideKeeps(c, Prepare(s, env), env);
    var (t, d) := Decide(c, Prepare(s, env), env);
    ActKeeps(c, t, d, env);
  }

  /** A poll reports verified if and only if it ends in control and none of the calls L1 made in it
      failed in a way that counts or was a fallback. It reports the mode it ends in and the
      temperature then on record. */
  lemma ReportIsExact(c: Setup, s: Sup, env: Env)
    requires c.Ok() && Inv(c, s)
    ensures var u, t, r := L1Entry(c, s, env).0, Turn(c, s, env), StepOnce(c, s, env).1;
            && (r.verified <==>
                  !t.monitorOnly && Failures(t.log) == Failures(u.log) && Fallbacks(t.log) == Fallbacks(u.log))
            && r.mode == t.mode && r.tEff == t.track.lastT
  {
    hide Failures;
    hide Fallbacks;
    hide Clearings;
    hide Writes;
    EntryKeeps(c, s, env);
    hide Prepare;
    hide Decide;
    hide Act;
    hide L1Poll;
    hide Inv;
    var (u, applied) := L1Entry(c, s, env);
    VerdictIsExact(c, u, applied, env);
    var v := L1Poll(c, u, applied, env).0;
    AskCounts(v, Ping, env);
    AskCounts(Note(v, Ping, env), Nap(c.intervalS * 1000), env);
  }

  /** A control write of the speed `rpm` that verified. */
  predicate Applies(e: Event, rpm: nat) { e.call == WriteSpeed(rpm, AtAct) && e.answer.verified }

  lemma FailAppliesNothing(s: Sup, env: Env)
    ensures var t := FailWrite(s, env);
            s.log <= t.log && forall i, rpm :: |s.log| <= i < |t.log| ==> !Applies(t.log[i], rpm)
  {}

  lemma WriteApplies(c: Setup, s: Sup, rpm: nat, env: Env)
    requires c.Ok()
    ensures var (t, applied) := WriteControlled(c, s, rpm, env);
            && s.log <= t.log
            && forall v: nat :: applied == Some(v) <==> exists i :: |s.log| <= i < |t.log| && Applies(t.log[i], v)
  {
    hide FailWrite;
    FailAppliesNothing(Note(s, SetMode(Manual, AtAct), env), env);
    var (u, armed) := if s.manualArmed then (s, true) else EnterManual(s, AtAct, env);
    var call := WriteSpeed(Clamp(rpm, c.hwMin, c.hwMax), AtAct);
    FailAppliesNothing(Note(u, call, env), env);
    var (t, applied) := WriteControlled(c, s, rpm, env);
    if applied.Some? { assert Applies(t.log[|t.log| - 1], applied.value); }
  }

  /** A poll reports a speed as applied exactly when its control write of that speed verified. */
  lemma AppliedIsExact(c: Setup, s: Sup, env: Env, rpm: nat)
    requires c.Ok()
    ensures var t, u := Decide(c, Prepare(s, env), env).0, L1Entry(c, s, env).0;
            && t.log <= u.log
            && (StepOnce(c, s, env).1.applied == Some(rpm) <==>
                  exists i :: |t.log| <= i < |u.log| && Applies(u.log[i], rpm))
  {
    hide Prepare;
    hide Decide;
    hide WriteControlled;
    hide FailWrite;
    hide L1Poll;
    hide Applies;
    var (t, d) := Decide(c, Prepare(s, env), env);
    match d
    case SetSpeed(r) => WriteApplies(c, t, r, env);
    case EscalateMax => WriteApplies(c, t, c.curve.maxRpm, env);
    case ReturnToAuto =>
      FailAppliesNothing(Note(t, SetMode(Auto, AtAct), env), env);
      ReturnAppliesNothing(t, env, rpm);
    case Observe =>
  }

  lemma ReturnAppliesNothing(s: Sup, env: Env, rpm: nat)
    ensures var t := ReturnFan(s, env);
            s.log <= t.log && forall i :: |s.log| <= i < |t.log| ==> !Applies(t.log[i], rpm)
  {}

  // ---- what a command costs ----

  /** The command step writes to the hardware exactly when news asks for observe while an owned fan
      is under control: one write of Auto, and the fallback's if that one fails as the third strike. */
  lemma CommandWritesExactly(s: Sup, env: Env)
    ensures var t, n := ApplyCmdFile(s, env), |s.log|;
            var read := env(n).cmd;
            var releases := News(s, read) && read.doc.mode == ObserveMode && s.mode != ObserveMode && s.manualArmed;
            && (releases ==> |t.log| > n + 1 && t.log[n + 1] == Event(SetMode(Auto, AtCommand), env(n + 1)))
            && Writes(t.log) == Writes(s.log) +
                 if !releases then 0
                 else if !env(n + 1).verified && s.writeFailures + 1 >= WRITE_FAIL_FALLBACK then 2 else 1
  {
    hide Failures;
    hide Fallbacks;
    hide Clearings;
    hide Writes;
    hide FailWrite;
    AskCounts(s, ReadCmd, env);
    var (u, a) := Ask(s, ReadCmd, env);
    if Fresh(u, a.cmd) {
      var v := u.(lastCmd := Some(a.cmd.doc));
      AskCounts(v, Rearmed, env);
      AskCounts(v, SetMode(Auto, AtCommand), env);
      var w := Note(v, SetMode(Auto, AtCommand), env).(restorePending := true);
      FailWrites(w, env);
      FailGrows(w, env);
    }
  }

  // ---- drift ----

  /** The firmware leaves the fan alone from call number `n` on. */
  ghost predicate Undisturbed(env: Env, n: nat) { forall k: nat :: k >= n ==> !env(k).physics.reclaimed }

  lemma ReassertKeepsManual(c: Setup, m: FanMode, s: Sup, written: nat, env: Env)
    requires c.Ok() && Undisturbed(env, |s.log|) && Fan(m, s.log) == Manual && s.manualArmed
    ensures var t := Reassert(c, s, written, env).0;
            |t.log| >= |s.log| && (t.monitorOnly || (Fan(m, t.log) == Manual && t.manualArmed))
  {
    hide Fan;
    hide Truthful;
    hide Loose;
    AskFan(m, s, WriteSpeed(Clamp(written, c.hwMin, c.hwMax), AtL1), env);
  }

  lemma StallKeepsManual(m: FanMode, s: Sup, prev: Option<nat>, rpm: nat, written: nat, env: Env)
    requires s.monitorOnly || (Fan(m, s.log) == Manual && s.manualArmed)
    ensures var t := StallCheck(s, prev, rpm, written, env).0;
            |t.log| >= |s.log| && (t.monitorOnly || (Fan(m, t.log) == Manual && t.manualArmed))
  {
    hide Fan;
  }

  lemma TrackKeepsManual(c: Setup, m: FanMode, s: Sup, prev: Option<nat>, rpm: nat, applied: Option<nat>, env: Env)
    requires c.Ok() && Undisturbed(env, |s.log|) && Fan(m, s.log) == Manual && s.manualArmed
    ensures var t := L1Track(c, s, prev, rpm, applied, false, env).0;
            t.monitorOnly || (Fan(m, t.log) == Manual && t.manualArmed)
  {
    hide Fan;
    hide Truthful;
    hide Loose;
    hide Reassert;
    hide StallCheck;
    hide OffTarget;
    if s.lastWritten.Some? {
      var written := s.lastWritten.value;
      ReassertKeepsManual(c, m, s, written, env);
      var t := if !s.monitorOnly && OffTarget(written, rpm) && applied.None? then Reassert(c, s, written, env).0 else s;
      StallKeepsManual(m, t, prev, rpm, written, env);
      AskFan(m, StallCheck(t, prev, rpm, written, env).0.(writeFailures := 0), Healthy, env);
    }
  }

  /** Drift is repaired in the poll that sees it: when an owned fan that is not being released reads
      Auto and the write of Manual verifies, the fan ends the poll in Manual and owned, unless that
      very poll falls back. */
  lemma DriftIsRepaired(c: Setup, m: FanMode, s: Sup, applied: Option<nat>, env: Env)
    requires c.Ok() && Inv(c, s) && s.manualArmed && !s.restorePending
    requires env(|s.log|).readable && env(|s.log|).mode == Auto && env(|s.log| + 1).verified
    requires Undisturbed(env, |s.log| + 2)
    ensures var t := L1Poll(c, s, applied, env).0;
            t.monitorOnly || (Fan(m, t.log) == Manual && t.manualArmed)
  {
    hide Fan;
    hide Truthful;
    hide Loose;
    hide L1Track;
    var (t, fan) := Ask(s, ReadFan(AtL1), env);
    var u := t.(prevActual := Some(fan.rpm));
    AskFan(m, u, SetMode(Manual, AtL1), env);
    TrackKeepsManual(c, m, EnterManual(u, AtL1, env).0, s.prevActual, fan.rpm, applied, env);
  }
}
