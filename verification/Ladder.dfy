/** The fallback ladder, read off the log of hardware calls. */
module Ladder {
  import opened Basics
  import opened Limits
  import opened Policy
  import opened Smc
  import opened Machine
  import opened Invariants

  /** A failing hardware call that counts: a control or mode write, or L1's own fan read. The
      pending-restore retry and the fallback's restore never count, nor does a re-assert that works. */
  predicate Counted(e: Event) {
    match e.call
    case SetMode(_, site) => !e.answer.verified && site in {AtCommand, AtAct, AtL1}
    case WriteSpeed(_, _) => !e.answer.verified
    case ReadFan(site) => !e.answer.readable && site == AtL1
    case _ => false
  }

  predicate IsFallback(e: Event) { e.call.SetMode? && e.call.site in {OnThirdStrike, OnStall} }

  predicate Clears(e: Event) { IsFallback(e) || e.call in {Rearmed, Healthy} }

  /** Failing calls since the counter was last cleared. */
  function Strikes(log: seq<Event>): nat {
    if log == [] then 0
    else
      var e := log[|log| - 1];
      if Clears(e) then 0 else Strikes(log[..|log| - 1]) + if Counted(e) then 1 else 0
  }

  function Fallbacks(log: seq<Event>): nat {
    if log == [] then 0 else Fallbacks(log[..|log| - 1]) + if IsFallback(log[|log| - 1]) then 1 else 0
  }

  predicate IsThirdStrikeFallback(e: Event) { e.call.SetMode? && e.call.site == OnThirdStrike }

  /** Every event is a strike fallback exactly when the third strike was counted just before it. */
  predicate Rungs(log: seq<Event>) {
    log == [] ||
    (Rungs(log[..|log| - 1]) &&
     (IsThirdStrikeFallback(log[|log| - 1]) <==> Strikes(log[..|log| - 1]) >= WRITE_FAIL_FALLBACK))
  }

  lemma {:induction false} RungsEverywhere(log: seq<Event>, i: nat)
    requires Rungs(log) && i < |log|
    ensures IsThirdStrikeFallback(log[i]) <==> Strikes(log[..i]) >= WRITE_FAIL_FALLBACK
  {
    if i < |log| - 1 {
      var p := log[..|log| - 1];
      RungsEverywhere(p, i);
      assert p[..i] == log[..i];
    }
  }

  ghost predicate LadderInv(s: Sup) { s.writeFailures == Strikes(s.log) && Rungs(s.log) }

  /** How one more event changes the readings of the log. */
  lemma Appended(log: seq<Event>, e: Event)
    ensures Strikes(log + [e]) == if Clears(e) then 0 else Strikes(log) + if Counted(e) then 1 else 0
    ensures Fallbacks(log + [e]) == Fallbacks(log) + if IsFallback(e) then 1 else 0
    ensures Rungs(log + [e]) <==> Rungs(log) && (IsThirdStrikeFallback(e) <==> Strikes(log) >= WRITE_FAIL_FALLBACK)
  {
    var more := log + [e];
    assert more[..|log|] == log;
  }

  lemma AskReads(s: Sup, call: Call, env: Env)
    ensures var t := Ask(s, call, env).0;
            var e := Event(call, env(|s.log|));
            && Strikes(t.log) == (if Clears(e) then 0 else Strikes(s.log) + if Counted(e) then 1 else 0)
            && Fallbacks(t.log) == Fallbacks(s.log) + (if IsFallback(e) then 1 else 0)
            && (Rungs(t.log) <==> Rungs(s.log) && (IsThirdStrikeFallback(e) <==> Strikes(s.log) >= WRITE_FAIL_FALLBACK))
  {
    Appended(s.log, Event(call, env(|s.log|)));
  }

  /** What a fallback leaves behind; from here to the end of the poll no second one can happen. */
  predicate Spent(s: Sup) {
    && s.monitorOnly && s.writeFailures == 0 && s.stallPolls <= 1
    && (s.manualArmed ==> s.restorePending)
  }

  /** From `s` to `t` at most one fallback happened, and one that did leaves `t` spent. */
  predicate FallsOnce(s: Sup, t: Sup) {
    && Fallbacks(s.log) <= Fallbacks(t.log) <= Fallbacks(s.log) + 1
    && (Fallbacks(t.log) > Fallbacks(s.log) ==> Spent(t))
  }

  lemma DegradeClimbs(s: Sup, site: Site, env: Env)
    requires Rungs(s.log) && s.writeFailures == Strikes(s.log)
    requires site in {OnThirdStrike, OnStall}
    requires site == OnThirdStrike <==> Strikes(s.log) >= WRITE_FAIL_FALLBACK
    ensures var t := DegradeToAuto(s, site, env);
            LadderInv(t) && Spent(t) && t.stallPolls == 0 && t.lastWritten.None? && Fallbacks(t.log) == Fallbacks(s.log) + 1
  {
    hide Strikes;
    hide Rungs;
    hide Fallbacks;
    var t := s.(monitorOnly := true, lastWritten := None, writeFailures := 0, stallPolls := 0, offTargetPolls := 0);
    AskReads(t, SetMode(Auto, site), env);
  }

  /** A counted call has just failed: the counter takes it in, and the third one falls back. */
  lemma FailClimbs(s: Sup, env: Env)
    requires Strikes(s.log) == s.writeFailures + 1 <= WRITE_FAIL_FALLBACK && Rungs(s.log)
    ensures var t := FailWrite(s, env);
            && LadderInv(t) && FallsOnce(s, t)
            && (Fallbacks(t.log) > Fallbacks(s.log) <==> s.writeFailures + 1 == WRITE_FAIL_FALLBACK)
            && (Fallbacks(t.log) > Fallbacks(s.log) ==> t.stallPolls == 0 && t.lastWritten.None?)
            && (Fallbacks(t.log) == Fallbacks(s.log) ==> t == s.(writeFailures := s.writeFailures + 1))
  {
    hide Strikes;
    hide Rungs;
    hide Fallbacks;
    hide DegradeToAuto;
    var t := s.(writeFailures := s.writeFailures + 1);
    if t.writeFailures >= WRITE_FAIL_FALLBACK { DegradeClimbs(t, OnThirdStrike, env); }
  }

  lemma EnterManualClimbs(s: Sup, site: Site, env: Env)
    requires LadderInv(s) && s.writeFailures < WRITE_FAIL_FALLBACK && site in {AtAct, AtL1}
    ensures var (t, held) := EnterManual(s, site, env);
            && LadderInv(t) && FallsOnce(s, t)
            && (Fallbacks(t.log) > Fallbacks(s.log) ==> !held && t.stallPolls == 0 && t.lastWritten.None?)
            && (Fallbacks(t.log) == Fallbacks(s.log) ==>
                  t == s.(manualArmed := t.manualArmed, writeFailures := t.writeFailures, log := t.log))
  {
    hide Strikes;
    hide Rungs;
    hide Fallbacks;
    hide FailWrite;
    AskReads(s, SetMode(Manual, site), env);
    if !env(|s.log|).verified { FailClimbs(Ask(s, SetMode(Manual, site), env).0, env); }
  }

  lemma ApplyModeClimbs(s: Sup, requested: RunMode, env: Env)
    requires LadderInv(s) && s.writeFailures < WRITE_FAIL_FALLBACK
    ensures var t := ApplyMode(s, requested, env);
            LadderInv(t) && FallsOnce(s, t)
  {
    hide Strikes;
    hide Rungs;
    hide Fallbacks;
    hide FailWrite;
    if requested != ObserveMode {
      AskReads(s.(monitorOnly := false, writeFailures := 0, restorePending := false), Rearmed, env);
    } else if s.mode != ObserveMode && s.manualArmed {
      AskReads(s, SetMode(Auto, AtCommand), env);
      var (u, a) := Ask(s, SetMode(Auto, AtCommand), env);
      if !a.verified { FailClimbs(u.(restorePending := true), env); }
    }
  }

  lemma RetryClimbs(s: Sup, env: Env)
    requires LadderInv(s) && s.writeFailures < WRITE_FAIL_FALLBACK
    ensures var t := AutoRestoreRetry(s, env);
            LadderInv(t) && Fallbacks(t.log) == Fallbacks(s.log) && (Spent(s) ==> Spent(t))
  {
    hide Strikes;
    hide Rungs;
    hide Fallbacks;
    AskReads(s, ReadFan(AtRetry), env);
    AskReads(Ask(s, ReadFan(AtRetry), env).0, SetMode(Auto, AtRetry), env);
  }

  lemma PrepareClimbs(c: Setup, s: Sup, env: Env)
    requires c.Ok() && Inv(c, s) && LadderInv(s)
    ensures var t := Prepare(s, env);
            LadderInv(t) && FallsOnce(s, t)
  {
    hide Strikes;
    hide Rungs;
    hide Fallbacks;
    hide ApplyMode;
    hide AutoRestoreRetry;
    AskReads(s, Ping, env);
    var t := Note(s, Ping, env);
    AskReads(t, ReadCmd, env);
    var (u, a) := Ask(t, ReadCmd, env);
    if Fresh(u, a.cmd) { ApplyModeClimbs(u.(lastCmd := Some(a.cmd.doc)), a.cmd.doc.mode, env); }
    CommandKeeps(c, t, env);
    RetryClimbs(ApplyCmdFile(t, env), env);
  }

  lemma WriteClimbs(c: Setup, s: Sup, rpm: nat, env: Env)
    requires c.Ok() && Inv(c, s) && LadderInv(s) && !s.Passive()
    ensures var (t, applied) := WriteControlled(c, s, rpm, env);
            LadderInv(t) && FallsOnce(s, t)
  {
    hide Strikes;
    hide Rungs;
    hide Fallbacks;
    hide EnterManual;
    hide FailWrite;
    if !s.manualArmed {
      EnterManualClimbs(s, AtAct, env);
      EnterManualKeeps(c, s, AtAct, env);
    }
    var (t, armed) := if s.manualArmed then (s, true) else EnterManual(s, AtAct, env);
    var call := WriteSpeed(Clamp(rpm, c.hwMin, c.hwMax), AtAct);
    AskReads(t, call, env);
    if armed && !env(|t.log|).verified { FailClimbs(Ask(t, call, env).0, env); }
  }

  lemma ActClimbs(c: Setup, s: Sup, d: Decision, env: Env)
    requires c.Ok() && Inv(c, s) && LadderInv(s) && (s.Passive() ==> d == Decision.Observe)
    ensures var t := Act(c, s, d, env).0;
            LadderInv(t) && FallsOnce(s, t) && (Spent(s) ==> t == s)
  {
    hide Strikes;
    hide Rungs;
    hide Fallbacks;
    hide WriteControlled;
    hide FailWrite;
    match d
    case SetSpeed(rpm) => WriteClimbs(c, s, rpm, env);
    case EscalateMax => WriteClimbs(c, s, c.curve.maxRpm, env);
    case ReturnToAuto =>
      AskReads(s, SetMode(Auto, AtAct), env);
      if !env(|s.log|).verified { FailClimbs(Ask(s, SetMode(Auto, AtAct), env).0, env); }
    case Observe =>
  }

  lemma StallClimbs(s: Sup, prev: Option<nat>, rpm: nat, written: nat, env: Env)
    requires LadderInv(s) && s.writeFailures < WRITE_FAIL_FALLBACK
    ensures var t := StallCheck(s, prev, rpm, written, env).0;
            && LadderInv(t) && FallsOnce(s, t)
            && (Spent(s) && s.stallPolls == 0 ==> Fallbacks(t.log) == Fallbacks(s.log) && Spent(t))
  {
    hide Strikes;
    hide Rungs;
    hide Fallbacks;
    hide DegradeToAuto;
    if OffTarget(written, rpm) && !Moved(prev, rpm) {
      DegradeClimbs(s.(stallPolls := 0, offTargetPolls := 0), OnStall, env);
    }
  }

  lemma ReassertClimbs(c: Setup, s: Sup, written: nat, env: Env)
    requires c.Ok() && LadderInv(s) && s.writeFailures < WRITE_FAIL_FALLBACK
    ensures var (t, failed) := Reassert(c, s, written, env);
            && LadderInv(t) && FallsOnce(s, t)
            && (Fallbacks(t.log) > Fallbacks(s.log) ==> failed && t.stallPolls == 0)
            && (Fallbacks(t.log) == Fallbacks(s.log) ==> t.writeFailures <= s.writeFailures + 1)
  {
    hide Strikes;
    hide Rungs;
    hide Fallbacks;
    hide FailWrite;
    var (t, a) := Ask(s, WriteSpeed(Clamp(written, c.hwMin, c.hwMax), AtL1), env);
    AskReads(s, WriteSpeed(Clamp(written, c.hwMin, c.hwMax), AtL1), env);
    if !a.verified {
      FailClimbs(t, env);
    } else {
      assert Strikes(t.log) == Strikes(s.log);
    }
  }

  lemma TrackClimbs(c: Setup, s: Sup, prev: Option<nat>, rpm: nat, applied: Option<nat>, failed: bool, env: Env)
    requires c.Ok() && Inv(c, s) && LadderInv(s)
    ensures var t := L1Track(c, s, prev, rpm, applied, failed, env).0;
            LadderInv(t) && FallsOnce(s, t) && (s.lastWritten.None? ==> t == s)
  {
    hide Strikes;
    hide Rungs;
    hide Fallbacks;
    hide Reassert;
    hide StallCheck;
    if s.lastWritten.Some? {
      var written := s.lastWritten.value;
      ReassertClimbs(c, s, written, env);
      ReassertKeeps(c, s, written, env);
      var t := if !s.monitorOnly && OffTarget(written, rpm) && applied.None? then Reassert(c, s, written, env).0 else s;
      StallClimbs(t, prev, rpm, written, env);
      StallKeeps(c, t, prev, rpm, written, env);
      var u := StallCheck(t, prev, rpm, written, env).0;
      AskReads(u.(writeFailures := 0), Healthy, env);
    }
  }

  lemma L1Climbs(c: Setup, s: Sup, applied: Option<nat>, env: Env)
    requires c.Ok() && Inv(c, s) && LadderInv(s)
    ensures var t := L1Poll(c, s, applied, env).0;
            LadderInv(t) && FallsOnce(s, t) && (Spent(s) ==> Fallbacks(t.log) == Fallbacks(s.log))
  {
    hide Strikes;
    hide Rungs;
    hide Fallbacks;
    hide FailWrite;
    hide EnterManual;
    hide L1Track;
    AskReads(s, ReadFan(AtL1), env);
    var (t, fan) := Ask(s, ReadFan(AtL1), env);
    if !fan.readable { FailClimbs(t, env); }
    var u := t.(prevActual := Some(fan.rpm));
    if fan.readable && u.manualArmed && !u.restorePending {
      EnterManualClimbs(u, AtL1, env);
      EnterManualKeeps(c, u, AtL1, env);
      var (v, held) := if fan.mode != Manual then EnterManual(u, AtL1, env) else (u, true);
      TrackClimbs(c, v, s.prevActual, fan.rpm, applied, !held, env);
    }
  }

  /** One poll: the counter is the strike count, the third strike and only it falls back for
      strikes, and there is at most one fallback of any kind. */
  lemma StepClimbs(c: Setup, s: Sup, env: Env)
    requires c.Ok() && Inv(c, s) && LadderInv(s)
    ensures var t := StepOnce(c, s, env).0;
            LadderInv(t) && Fallbacks(s.log) <= Fallbacks(t.log) <= Fallbacks(s.log) + 1
  {
    hide Strikes;
    hide Rungs;
    hide Fallbacks;
    hide Prepare;
    hide Decide;
    hide Act;
    hide L1Poll;
    PrepareKeeps(c, s, env);
    PrepareClimbs(c, s, env);
    var p := Prepare(s, env);
    DecideKeeps(c, p, env);
    AskReads(p, ReadSensors, env);
    var (t, d) := Decide(c, p, env);
    ActKeeps(c, t, d, env);
    ActClimbs(c, t, d, env);
    var (u, applied) := Act(c, t, d, env);
    L1Climbs(c, u, applied, env);
    L1Keeps(c, u, applied, env);
    AskReads(L1Poll(c, u, applied, env).0, Ping, env);
  }

  lemma {:induction false} RunClimbs(c: Setup, s: Sup, env: Env, n: nat)
    requires c.Ok() && Inv(c, s) && LadderInv(s)
    ensures LadderInv(Run(c, s, env, n))
  {
    hide StepOnce;
    hide Strikes;
    hide Rungs;
    if n > 0 {
      RunClimbs(c, s, env, n - 1);
      RunKeeps(c, s, env, n - 1);
      var t := Run(c, s, env, n - 1);
      StepClimbs(c, t, env);
      StepKeeps(c, t, env);
      AskReads(StepOnce(c, t, env).0, Nap(c.intervalS * 1000), env);
    }
  }

  lemma StartupClimbs(c: Setup, start: RunMode, env: Env)
    requires c.Ok()
    ensures LadderInv(Startup(NewSup(c, start), env))
  {
    hide Strikes;
    hide Rungs;
    hide Fallbacks;
    var s := NewSup(c, start);
    assert LadderInv(s) by { EmptyLog(); }
    AskReads(s, ReadFan(AtStartup), env);
    var t := Ask(s, ReadFan(AtStartup), env).0;
    AskReads(t, Probe, env);
    var (u, probe) := Ask(t, Probe, env);
    AskReads(u.(l2Absent := !probe.verified, mode := if probe.verified then u.mode else ObserveMode), SetMode(Auto, AtStartup), env);
  }

  lemma EmptyLog()
    ensures Strikes([]) == 0 && Rungs([]) && Fallbacks([]) == 0
  {}

  /** The ladder, on every run: at every turn the counter equals the failing calls logged since it
      was last cleared and is below three; anywhere in the log a strike fallback follows exactly
      where the third strike was counted; and no turn falls back twice. */
  lemma LadderHolds(c: Setup, start: RunMode, env: Env, n: nat)
    requires c.Ok()
    ensures var s := Daemon(c, start, env, n);
            && s.writeFailures == Strikes(s.log) < WRITE_FAIL_FALLBACK
            && (forall i :: 0 <= i < |s.log| ==>
                  (IsThirdStrikeFallback(s.log[i]) <==> Strikes(s.log[..i]) >= WRITE_FAIL_FALLBACK))
            && Fallbacks(Turn(c, s, env).log) <= Fallbacks(s.log) + 1
  {
    hide StepOnce;
    hide Startup;
    hide Strikes;
    hide Rungs;
    hide Fallbacks;
    StartupClimbs(c, start, env);
    StartupEstablishes(c, start, env);
    RunClimbs(c, Startup(NewSup(c, start), env), env, n);
    DaemonInvariant(c, start, env, n);
    var s := Daemon(c, start, env, n);
    forall i | 0 <= i < |s.log|
      ensures IsThirdStrikeFallback(s.log[i]) <==> Strikes(s.log[..i]) >= WRITE_FAIL_FALLBACK
    {
      RungsEverywhere(s.log, i);
    }
    StepClimbs(c, s, env);
    AskReads(StepOnce(c, s, env).0, Nap(c.intervalS * 1000), env);
  }
}
