/** The watchdog: how long a poll can block in settle windows, and how far apart pings can be. */
module Watchdog {
  import opened Basics
  import opened Limits
  import opened Policy
  import opened Smc
  import opened Machine
  import opened Invariants
  import opened Ladder
  import opened FirstTurn
  import opened Growth

  const MODE_MS: nat := MaxSleepMs(MODE_SETTLE_MS)
  const SPEED_MS: nat := MaxSleepMs(ECHO_SETTLE_MS)

  /** Settled writes sleep no longer than `Smc.SettleIsBounded` allows. */
  ghost predicate InTime(env: Env) { forall k: nat :: env(k).modeMs <= MODE_MS && env(k).speedMs <= SPEED_MS }

  function Ms(e: Event): nat {
    match e.call
    case Nap(napMs) => napMs
    case SetMode(_, _) => e.answer.modeMs
    case Probe => e.answer.modeMs
    case WriteSpeed(_, _) => e.answer.speedMs
    case _ => 0
  }

  /** Milliseconds slept since the last ping. */
  function SincePing(log: seq<Event>): nat {
    if log == [] || log[|log| - 1].call == Ping then 0
    else SincePing(log[..|log| - 1]) + Ms(log[|log| - 1])
  }

  /** Every ping in the log comes at most `bound` after the one before it. */
  predicate GapsWithin(log: seq<Event>, bound: nat) {
    log == [] ||
    (GapsWithin(log[..|log| - 1], bound) && (log[|log| - 1].call == Ping ==> SincePing(log[..|log| - 1]) <= bound))
  }

  /** Milliseconds slept in calls other than fallbacks, over the whole log. */
  function Work(log: seq<Event>): nat {
    if log == [] then 0
    else Work(log[..|log| - 1]) + if IsFallback(log[|log| - 1]) then 0 else Ms(log[|log| - 1])
  }

  lemma AskTimes(s: Sup, call: Call, env: Env)
    ensures var t := Ask(s, call, env).0;
            var e := Event(call, env(|s.log|));
            && SincePing(t.log) == (if call == Ping then 0 else SincePing(s.log) + Ms(e))
            && Work(t.log) == Work(s.log) + (if IsFallback(e) then 0 else Ms(e))
            && Fallbacks(t.log) == Fallbacks(s.log) + (if IsFallback(e) then 1 else 0)
            && (forall b: nat :: GapsWithin(t.log, b) <==> GapsWithin(s.log, b) && (call == Ping ==> SincePing(s.log) <= b))
  {
    var e := Event(call, env(|s.log|));
    assert (s.log + [e])[..|s.log|] == s.log;
    hide GapsWithin;
    forall b: nat
      ensures GapsWithin(s.log + [e], b) <==> GapsWithin(s.log, b) && (call == Ping ==> SincePing(s.log) <= b)
    {
      AskGap(s.log, e, b);
    }
  }

  lemma AskGap(log: seq<Event>, e: Event, b: nat)
    ensures GapsWithin(log + [e], b) <==> GapsWithin(log, b) && (e.call == Ping ==> SincePing(log) <= b)
  {
    assert (log + [e])[..|log|] == log;
  }

  /** From `s` to `t` no ping: the time passed is the work done plus at most one mode write per
      fallback, and the work is at most `budget`. */
  ghost predicate Took(s: Sup, t: Sup, budget: nat) {
    && SincePing(t.log) + Work(s.log) <= SincePing(s.log) + Work(t.log) + MODE_MS * (Fallbacks(t.log) - Fallbacks(s.log))
    && Work(s.log) <= Work(t.log) <= Work(s.log) + budget
    && (forall b: nat :: GapsWithin(s.log, b) ==> GapsWithin(t.log, b))
  }

  lemma FailTakes(s: Sup, env: Env)
    requires InTime(env)
    ensures Took(s, FailWrite(s, env), 0)
    ensures s.lastWritten.None? ==> FailWrite(s, env).lastWritten.None?
  {
    hide SincePing;
    hide Work;
    hide GapsWithin;
    hide Fallbacks;
    AskTimes(s, SetMode(Auto, OnThirdStrike), env);
  }

  lemma EnterManualTakes(s: Sup, site: Site, env: Env)
    requires InTime(env) && site in {AtAct, AtL1}
    ensures Took(s, EnterManual(s, site, env).0, MODE_MS)
    ensures s.lastWritten.None? ==> EnterManual(s, site, env).0.lastWritten.None?
  {
    hide SincePing;
    hide Work;
    hide GapsWithin;
    hide Fallbacks;
    hide FailWrite;
    AskTimes(s, SetMode(Manual, site), env);
    FailTakes(Ask(s, SetMode(Manual, site), env).0, env);
  }

  lemma ApplyModeTakes(s: Sup, requested: RunMode, env: Env)
    requires InTime(env)
    ensures var t := ApplyMode(s, requested, env);
            Took(s, t, if t.mode == ObserveMode then MODE_MS else 0)
  {
    hide SincePing;
    hide Work;
    hide GapsWithin;
    hide Fallbacks;
    hide FailWrite;
    if requested != ObserveMode {
      AskTimes(s, Rearmed, env);
    } else if s.mode != ObserveMode && s.manualArmed {
      AskTimes(s, SetMode(Auto, AtCommand), env);
      FailTakes(Ask(s, SetMode(Auto, AtCommand), env).0.(restorePending := true), env);
    }
  }

  lemma RetryTakes(s: Sup, env: Env)
    requires InTime(env)
    ensures var t := AutoRestoreRetry(s, env);
            && Took(s, t, MODE_MS)
            && (Work(t.log) > Work(s.log) ==> t.restorePending || (!t.manualArmed && t.lastWritten.None?))
            && t.mode == s.mode
  {
    hide SincePing;
    hide Work;
    hide GapsWithin;
    hide Fallbacks;
    AskTimes(s, ReadFan(AtRetry), env);
    AskTimes(Ask(s, ReadFan(AtRetry), env).0, SetMode(Auto, AtRetry), env);
  }

  /** Before the sensors: up to two mode writes, but two only on the way to Observe. */
  lemma PrepareTakes(c: Setup, s: Sup, env: Env)
    requires c.Ok() && Inv(c, s) && InTime(env)
    ensures var p, t := Note(s, Ping, env), Prepare(s, env);
            && Took(p, t, if t.mode == ObserveMode then 2 * MODE_MS else MODE_MS)
            && (!t.Passive() && Work(t.log) > Work(p.log) ==> t.restorePending || (!t.manualArmed && t.lastWritten.None?))
  {
    hide SincePing;
    hide Work;
    hide GapsWithin;
    hide Fallbacks;
    hide ApplyMode;
    hide AutoRestoreRetry;
    var p := Note(s, Ping, env);
    AskTimes(p, ReadCmd, env);
    var (u, a) := Ask(p, ReadCmd, env);
    if Fresh(u, a.cmd) { ApplyModeTakes(u.(lastCmd := Some(a.cmd.doc)), a.cmd.doc.mode, env); }
    RetryTakes(ApplyCmdFile(p, env), env);
  }

  lemma WriteTakes(c: Setup, s: Sup, rpm: nat, env: Env)
    requires c.Ok() && Inv(c, s) && InTime(env) && !s.Passive()
    ensures var (t, applied) := WriteControlled(c, s, rpm, env);
            && Took(s, t, if s.manualArmed then SPEED_MS else MODE_MS + SPEED_MS)
            && (!s.manualArmed ==> t.lastWritten.None? || applied.Some?)
            && (s.restorePending ==> t.restorePending || !t.manualArmed)
  {
    hide SincePing;
    hide Work;
    hide GapsWithin;
    hide Fallbacks;
    if !s.manualArmed { EnterManualTakes(s, AtAct, env); }
    var (t, armed) := if s.manualArmed then (s, true) else EnterManual(s, AtAct, env);
    var call := WriteSpeed(Clamp(rpm, c.hwMin, c.hwMax), AtAct);
    AskTimes(t, call, env);
    FailTakes(Ask(t, call, env).0, env);
  }

  lemma ActTakes(c: Setup, s: Sup, d: Decision, env: Env)
    requires c.Ok() && Inv(c, s) && InTime(env) && (s.Passive() ==> d == Decision.Observe)
    ensures var (t, applied) := Act(c, s, d, env);
            && Took(s, t, if s.Passive() then 0 else if s.manualArmed then SPEED_MS else MODE_MS + SPEED_MS)
            && (s.Passive() ==> t == s)
            && (!s.manualArmed ==> t.lastWritten.None? || applied.Some?)
            && (s.restorePending ==> t.restorePending || !t.manualArmed)
  {
    hide SincePing;
    hide Work;
    hide GapsWithin;
    hide Fallbacks;
    hide WriteControlled;
    match d
    case SetSpeed(rpm) => WriteTakes(c, s, rpm, env);
    case EscalateMax => WriteTakes(c, s, c.curve.maxRpm, env);
    case ReturnToAuto =>
      AskTimes(s, SetMode(Auto, AtAct), env);
      FailTakes(Ask(s, SetMode(Auto, AtAct), env).0, env);
    case Observe =>
  }

  lemma TrackTakes(c: Setup, s: Sup, prev: Option<nat>, rpm: nat, applied: Option<nat>, failed: bool, env: Env)
    requires c.Ok() && InTime(env)
    ensures Took(s, L1Track(c, s, prev, rpm, applied, failed, env).0,
                 if s.lastWritten.None? || applied.Some? then 0 else SPEED_MS)
  {
    hide SincePing;
    hide Work;
    hide GapsWithin;
    hide Fallbacks;
    hide Reassert;
    hide StallCheck;
    if s.lastWritten.Some? {
      var written := s.lastWritten.value;
      ReassertTakes(c, s, written, env);
      var t := if !s.monitorOnly && OffTarget(written, rpm) && applied.None? then Reassert(c, s, written, env).0 else s;
      StallTakes(t, prev, rpm, written, env);
      AskTimes(StallCheck(t, prev, rpm, written, env).0.(writeFailures := 0), Healthy, env);
    }
  }

  lemma ReassertTakes(c: Setup, s: Sup, written: nat, env: Env)
    requires c.Ok() && InTime(env)
    ensures Took(s, Reassert(c, s, written, env).0, SPEED_MS)
  {
    hide SincePing;
    hide Work;
    hide GapsWithin;
    hide Fallbacks;
    hide FailWrite;
    var call := WriteSpeed(Clamp(written, c.hwMin, c.hwMax), AtL1);
    AskTimes(s, call, env);
    FailTakes(Ask(s, call, env).0, env);
  }

  lemma DegradeTakes(s: Sup, site: Site, env: Env)
    requires InTime(env) && site in {OnThirdStrike, OnStall}
    ensures Took(s, DegradeToAuto(s, site, env), 0)
  {
    hide SincePing;
    hide Work;
    hide GapsWithin;
    hide Fallbacks;
    AskTimes(s, SetMode(Auto, site), env);
  }

  lemma StallTakes(s: Sup, prev: Option<nat>, rpm: nat, written: nat, env: Env)
    requires InTime(env)
    ensures Took(s, StallCheck(s, prev, rpm, written, env).0, 0)
  {
    hide SincePing;
    hide Work;
    hide GapsWithin;
    hide Fallbacks;
    hide OffTarget;
    hide Moved;
    hide DegradeToAuto;
    DegradeTakes(s.(stallPolls := 0, offTargetPolls := 0), OnStall, env);
  }

  lemma L1Takes(c: Setup, s: Sup, applied: Option<nat>, env: Env)
    requires c.Ok() && InTime(env)
    ensures Took(s, L1Poll(c, s, applied, env).0,
                 if !s.manualArmed || s.restorePending then 0
                 else if s.lastWritten.None? || applied.Some? then MODE_MS
                 else MODE_MS + SPEED_MS)
  {
    hide SincePing;
    hide Work;
    hide GapsWithin;
    hide Fallbacks;
    hide L1Track;
    hide FailWrite;
    hide EnterManual;
    AskTimes(s, ReadFan(AtL1), env);
    var (t, fan) := Ask(s, ReadFan(AtL1), env);
    FailTakes(t, env);
    var u := t.(prevActual := Some(fan.rpm));
    if fan.readable && u.manualArmed && !u.restorePending {
      EnterManualTakes(u, AtL1, env);
      var (v, held) := if fan.mode != Manual then EnterManual(u, AtL1, env) else (u, true);
      TrackTakes(c, v, s.prevActual, fan.rpm, applied, !held, env);
    }
  }

  lemma TookInAll(s: Sup, t: Sup, u: Sup, b1: nat, b2: nat)
    requires Took(s, t, b1) && Took(t, u, b2)
    ensures Took(s, u, b1 + b2)
  {
    hide SincePing;
    hide Work;
    hide GapsWithin;
    hide Fallbacks;
  }

  const POLL_MS: nat := 4 * MODE_MS + SPEED_MS

  /** From the sensors on: what may still be spent depends on how the poll got there. */
  lemma RestTakes(c: Setup, s: Sup, env: Env)
    requires c.Ok() && Inv(c, s) && InTime(env)
    ensures var (t, d) := Decide(c, s, env);
            var (u, applied) := Act(c, t, d, env);
            var v := L1Poll(c, u, applied, env).0;
            && Inv(c, u)
            && Took(s, v, if s.Passive() then 0
                          else if !s.manualArmed || s.restorePending then 2 * MODE_MS + SPEED_MS
                          else MODE_MS + 2 * SPEED_MS)
  {
    hide SincePing;
    hide Work;
    hide GapsWithin;
    hide Fallbacks;
    hide Decide;
    hide Act;
    hide L1Poll;
    DecideKeeps(c, s, env);
    AskTimes(s, ReadSensors, env);
    var (t, d) := Decide(c, s, env);
    assert Took(s, t, 0);
    ActKeeps(c, t, d, env);
    ActTakes(c, t, d, env);
    var (u, applied) := Act(c, t, d, env);
    L1Takes(c, u, applied, env);
    hide Took;
    var act := if t.Passive() then 0 else if t.manualArmed then SPEED_MS else MODE_MS + SPEED_MS;
    var l1 := if !u.manualArmed || u.restorePending then 0
              else if u.lastWritten.None? || applied.Some? then MODE_MS else MODE_MS + SPEED_MS;
    TookInAll(s, t, u, 0, act);
    TookInAll(s, u, L1Poll(c, u, applied, env).0, act, l1);
    TookLess(s, L1Poll(c, u, applied, env).0, act + l1,
             if s.Passive() then 0 else if !s.manualArmed || s.restorePending then 2 * MODE_MS + SPEED_MS else MODE_MS + 2 * SPEED_MS);
  }

  lemma TookLess(s: Sup, t: Sup, b1: nat, b2: nat)
    requires Took(s, t, b1) && b1 <= b2
    ensures Took(s, t, b2)
  {
    hide SincePing;
    hide Work;
    hide GapsWithin;
    hide Fallbacks;
  }

  /** Between its two pings a poll sleeps at most 9.9 seconds, over every branch and fault
      pattern: four mode writes and one speed write. */
  lemma PollIsBounded(c: Setup, s: Sup, env: Env)
    requires c.Ok() && Inv(c, s) && LadderInv(s) && InTime(env)
    ensures POLL_MS == 9_900
    ensures var t := StepOnce(c, s, env).0;
            && |t.log| > 0 && SincePing(t.log[..|t.log| - 1]) <= POLL_MS && t.log[|t.log| - 1].call == Ping
            && SincePing(t.log) == 0
            && (forall b: nat :: b >= POLL_MS && SincePing(s.log) <= b && GapsWithin(s.log, b) ==> GapsWithin(t.log, b))
  {
    hide SincePing;
    hide Work;
    hide GapsWithin;
    hide Fallbacks;
    hide Prepare;
    hide Decide;
    hide Act;
    hide L1Poll;
    hide LadderInv;
    hide Inv;
    AskTimes(s, Ping, env);
    PrepareThenRest(c, s, env);
    var (t, d) := Decide(c, Prepare(s, env), env);
    var (u, applied) := Act(c, t, d, env);
    var v := L1Poll(c, u, applied, env).0;
    AskTimes(v, Ping, env);
    assert (v.log + [Event(Ping, env(|v.log|))])[..|v.log|] == v.log;
  }

  /** The two halves together, from the first ping to just before the second. */
  lemma PrepareThenRest(c: Setup, s: Sup, env: Env)
    requires c.Ok() && Inv(c, s) && LadderInv(s) && InTime(env)
    ensures var (t, d) := Decide(c, Prepare(s, env), env);
            var (u, applied) := Act(c, t, d, env);
            var v := L1Poll(c, u, applied, env).0;
            && SincePing(v.log) <= POLL_MS
            && (forall b: nat :: GapsWithin(Note(s, Ping, env).log, b) ==> GapsWithin(v.log, b))
  {
    hide SincePing;
    hide Work;
    hide GapsWithin;
    hide Fallbacks;
    hide Prepare;
    hide Decide;
    hide Act;
    hide L1Poll;
    hide LadderInv;
    var first, p := Note(s, Ping, env), Prepare(s, env);
    AskTimes(s, Ping, env);
    PrepareKeeps(c, s, env);
    PrepareTakes(c, s, env);
    RestTakes(c, p, env);
    var (t, d) := Decide(c, p, env);
    var (u, applied) := Act(c, t, d, env);
    var v := L1Poll(c, u, applied, env).0;
    AskTimes(v, Ping, env);
    StepClimbs(c, s, env);
    assert Fallbacks(v.log) <= Fallbacks(first.log) + 1;
    HalvesTake(c, first, p, v);
  }

  /** If the first half cost anything and the poll is still active, the fan is being released or
      no longer owned, so the second half is on its cheaper branch. */
  lemma HalvesTake(c: Setup, first: Sup, p: Sup, v: Sup)
    requires c.Ok() && Inv(c, p)
    requires Took(first, p, if p.mode == ObserveMode then 2 * MODE_MS else MODE_MS)
    requires !p.Passive() && Work(p.log) > Work(first.log) ==> p.restorePending || !p.manualArmed
    requires Took(p, v, if p.Passive() then 0
                        else if !p.manualArmed || p.restorePending then 2 * MODE_MS + SPEED_MS
                        else MODE_MS + 2 * SPEED_MS)
    requires SincePing(first.log) == 0 && Fallbacks(v.log) <= Fallbacks(first.log) + 1
    ensures SincePing(v.log) <= POLL_MS
    ensures forall b: nat :: GapsWithin(first.log, b) ==> GapsWithin(v.log, b)
  {
    hide SincePing;
    hide Work;
    hide GapsWithin;
    hide Fallbacks;
  }

  /** The longest gap the daemon's loop can leave between pings. */
  function MaxGapMs(c: Setup): nat { Max(POLL_MS, c.intervalS * 1000) }

  lemma {:induction false} RunPings(c: Setup, s: Sup, env: Env, n: nat)
    requires c.Ok() && Inv(c, s) && LadderInv(s) && InTime(env)
    requires GapsWithin(s.log, MaxGapMs(c)) && SincePing(s.log) <= MaxGapMs(c)
    ensures var t := Run(c, s, env, n);
            GapsWithin(t.log, MaxGapMs(c)) && SincePing(t.log) <= MaxGapMs(c)
  {
    hide StepOnce;
    hide SincePing;
    hide GapsWithin;
    if n > 0 {
      RunPings(c, s, env, n - 1);
      RunKeeps(c, s, env, n - 1);
      RunClimbs(c, s, env, n - 1);
      var t := Run(c, s, env, n - 1);
      PollIsBounded(c, t, env);
      AskTimes(StepOnce(c, t, env).0, Nap(c.intervalS * 1000), env);
    }
  }

  /** The frame of a turn: it starts with a ping and ends with a second one and a nap of the
      configured interval. */
  lemma TurnIsFramed(c: Setup, s: Sup, env: Env)
    requires c.Ok()
    ensures var log, n := Turn(c, s, env).log, |Turn(c, s, env).log|;
            && |s.log| + 2 < n && log[|s.log|].call == Ping
            && log[n - 2].call == Ping && log[n - 1].call == Nap(c.intervalS * 1000)
  {
    hide Prepare;
    hide Decide;
    hide Act;
    hide L1Poll;
    PrepareGrows(s, env);
    var p := Prepare(s, env);
    DecideGrows(c, p, env);
    var (t, d) := Decide(c, p, env);
    ActGrows(c, t, d, env);
    var (u, applied) := Act(c, t, d, env);
    L1Grows(c, u, applied, env);
    var v := L1Poll(c, u, applied, env).0;
    assert v.log[|s.log|] == p.log[|s.log|] == Note(s, Ping, env).log[|s.log|];
  }

  lemma StartupIsShort(c: Setup, start: RunMode, env: Env)
    requires c.Ok() && InTime(env)
    ensures var s := Startup(NewSup(c, start), env);
            GapsWithin(s.log, MaxGapMs(c)) && SincePing(s.log) <= 2 * MODE_MS
  {
    hide SincePing;
    hide GapsWithin;
    var s := NewSup(c, start);
    assert GapsWithin(s.log, MaxGapMs(c)) && SincePing(s.log) == 0 by { NoEvents(MaxGapMs(c)); }
    AskTimes(s, ReadFan(AtStartup), env);
    var t := Ask(s, ReadFan(AtStartup), env).0;
    AskTimes(t, Probe, env);
    var (u, probe) := Ask(t, Probe, env);
    AskTimes(u.(l2Absent := !probe.verified, mode := if probe.verified then u.mode else ObserveMode), SetMode(Auto, AtStartup), env);
  }

  lemma NoEvents(b: nat)
    ensures GapsWithin([], b) && SincePing([]) == 0
  {}

  /** A gap bound read at a position: a ping comes within the bound of the ping before it. */
  lemma {:induction false} GapAt(log: seq<Event>, b: nat, i: nat)
    requires GapsWithin(log, b) && i < |log| && log[i].call == Ping
    ensures SincePing(log[..i]) <= b
  {
    var p := log[..|log| - 1];
    if i < |log| - 1 {
      GapAt(p, b, i);
      assert p[..i] == log[..i];
    }
  }

  /** The watchdog is never starved: in every run of the daemon, with any validated interval and
      any hardware, the time slept before each ping since the one before it stays below the
      unit's watchdog budget. */
  lemma WatchdogIsFed(c: Setup, start: RunMode, env: Env, n: nat, i: nat)
    requires c.Ok() && InTime(env)
    requires i < |Daemon(c, start, env, n).log| && Daemon(c, start, env, n).log[i].call == Ping
    ensures SincePing(Daemon(c, start, env, n).log[..i]) <= MaxGapMs(c) < WATCHDOG_UNIT_SEC * 1000
  {
    hide Startup;
    hide StepOnce;
    hide SincePing;
    hide GapsWithin;
    StartupEstablishes(c, start, env);
    StartupClimbs(c, start, env);
    StartupIsShort(c, start, env);
    RunPings(c, Startup(NewSup(c, start), env), env, n);
    GapAt(Daemon(c, start, env, n).log, MaxGapMs(c), i);
  }

  // ---- the bound is tight ----

  /** A run in which every settled write sleeps as long as it can. Turn one takes the fan and writes
      the held speed. In turn two an observe command's release fails, one strike, and so does its
      retry. In turn three control is re-commanded: the pending release and the arming each verify
      only in their second window, the speed write fails, the firmware takes the fan back, and
      re-asserting Manual is the third strike. */
  function WorstEnv(c: Setup): Env {
    k => Answer(
      true, k !in {13, 15, 26, 28}, MODE_MS, SPEED_MS, c.hwMin,
      if k in {0, 27} then Auto else Manual,
      if k == 16 then [] else [Some(50_000)],
      if k == 12 then Content(Request(ObserveMode, 0)) else if k == 21 then Content(Request(HoldMode(0), 0)) else Absent,
      Physics(false, false, 0))
  }

  lemma WorstStartup(c: Setup)
    requires c.Ok()
    ensures var blank := NewSup(c, HoldMode(0));
            var s := Startup(blank, WorstEnv(c));
            |s.log| == 2 && s == blank.(log := s.log)
  {}

  lemma WorstDecide(c: Setup, s: Sup, env: Env)
    requires c.Ok() && env == WorstEnv(c) && |s.log| in {4, 24}
    requires !s.Passive() && s.mode.HoldMode? && s.track.hotStreak == 0
    ensures var (t, d) := Decide(c, s, env);
            && d == SetSpeed(s.mode.rpm) && t == s.(track := t.track, log := t.log) && t.track.hotStreak <= 1
            && |t.log| == |s.log| + 1 && SincePing(t.log) == SincePing(s.log)
  {
    hide SincePing;
    AskTimes(s, ReadSensors, env);
    var r: Readings := [Some(50_000)];
    assert ScreenAll(r) == r && r[..0] == [];
    assert Hottest(r) == Some(50_000);
  }

  /** Turn one, at its end: in control with the held speed written. */
  lemma WorstFirstTurn(c: Setup, s: Sup)
    requires c.Ok() && |s.log| == 2 && s == NewSup(c, HoldMode(0)).(log := s.log)
    ensures var t := Turn(c, s, WorstEnv(c));
            && |t.log| == 11 && t.track.hotStreak <= 1
            && t == s.(track := t.track, manualArmed := true, lastWritten := Some(c.hwMin), prevActual := Some(c.hwMin), log := t.log)
  {
    hide Turn;
    hide Decide;
    var env := WorstEnv(c);
    WorstDecide(c, Note(Note(s, Ping, env), ReadCmd, env), env);
    FirstTurnWorks(c, s, env);
  }

  /** Turn two, at its end: a release pending, one strike counted. */
  lemma WorstSecondTurn(c: Setup, s: Sup)
    requires c.Ok() && |s.log| == 11 && s.mode.HoldMode? && !s.monitorOnly && s.manualArmed && !s.restorePending
    requires s.writeFailures == 0 && s.lastCmd.None? && !s.l2Absent
    ensures var t := Turn(c, s, WorstEnv(c));
            && |t.log| == 20 && t.track.hotStreak == 0
            && t == s.(track := t.track, mode := ObserveMode, restorePending := true, writeFailures := 1,
                       lastCmd := Some(Request(ObserveMode, 0)), prevActual := t.prevActual, log := t.log)
  {
    var env := WorstEnv(c);
    var p := Prepare(s, env);
    assert p == s.(mode := ObserveMode, restorePending := true, writeFailures := 1, lastCmd := Some(Request(ObserveMode, 0)), log := p.log);
    assert |p.log| == 16;
    hide Prepare;
    var (t, d) := Decide(c, p, env);
    assert ScreenAll(env(16).readings) == [];
    assert d == Decision.Observe && t == p.(track := t.track, log := t.log) && t.track.hotStreak == 0 && |t.log| == 17;
    hide Decide;
  }

  lemma WorstPrepare(c: Setup, s: Sup)
    requires c.Ok() && |s.log| == 20 && s.mode == ObserveMode && !s.monitorOnly && s.restorePending && !s.l2Absent
    requires s.lastCmd == Some(Request(ObserveMode, 0))
    ensures var p := Prepare(s, WorstEnv(c));
            && p == Released(s).(mode := HoldMode(0), lastCmd := Some(Request(HoldMode(0), 0)), log := p.log)
            && |p.log| == 24 && SincePing(p.log) == MODE_MS
  {
    hide SincePing;
    hide AutoRestoreRetry;
    var env := WorstEnv(c);
    AskTimes(s, Ping, env);
    AskTimes(Note(s, Ping, env), ReadCmd, env);
    var q := ApplyCmdFile(Note(s, Ping, env), env);
    assert q == s.(mode := HoldMode(0), lastCmd := Some(Request(HoldMode(0), 0)), log := q.log);
    WorstRetry(c, q);
  }

  lemma WorstRetry(c: Setup, s: Sup)
    requires |s.log| == 22 && s.restorePending
    ensures var t := AutoRestoreRetry(s, WorstEnv(c));
            t == Released(s).(log := t.log) && |t.log| == 24 && SincePing(t.log) == SincePing(s.log) + MODE_MS
  {
    hide SincePing;
    AskTimes(s, ReadFan(AtRetry), WorstEnv(c));
    AskTimes(Note(s, ReadFan(AtRetry), WorstEnv(c)), SetMode(Auto, AtRetry), WorstEnv(c));
  }

  lemma WorstAct(c: Setup, s: Sup)
    requires c.Ok() && |s.log| == 25 && !s.Passive() && !s.manualArmed && s.lastWritten.None? && s.writeFailures == 1
    ensures var (t, applied) := Act(c, s, SetSpeed(0), WorstEnv(c));
            && applied.None? && t == s.(manualArmed := true, writeFailures := 2, log := t.log)
            && |t.log| == 27 && SincePing(t.log) == SincePing(s.log) + MODE_MS + SPEED_MS
  {
    hide SincePing;
    AskTimes(s, SetMode(Manual, AtAct), WorstEnv(c));
    AskTimes(Note(s, SetMode(Manual, AtAct), WorstEnv(c)), WriteSpeed(c.hwMin, AtAct), WorstEnv(c));
  }

  lemma WorstL1(c: Setup, s: Sup)
    requires c.Ok() && |s.log| == 27 && s.manualArmed && !s.restorePending && s.lastWritten.None? && s.writeFailures == 2
    ensures var t := L1Poll(c, s, None, WorstEnv(c)).0;
            |t.log| == 30 && SincePing(t.log) == SincePing(s.log) + 2 * MODE_MS
  {
    hide SincePing;
    var env := WorstEnv(c);
    AskTimes(s, ReadFan(AtL1), env);
    var t := Note(s, ReadFan(AtL1), env);
    AskTimes(t, SetMode(Manual, AtL1), env);
    AskTimes(Note(t, SetMode(Manual, AtL1), env), SetMode(Auto, OnThirdStrike), env);
  }

  lemma WorstPoll(c: Setup, s: Sup)
    requires c.Ok() && |s.log| == 20 && s.mode == ObserveMode && !s.monitorOnly && s.restorePending && !s.l2Absent
    requires s.lastCmd == Some(Request(ObserveMode, 0)) && s.writeFailures == 1 && s.track.hotStreak == 0
    ensures var log := StepOnce(c, s, WorstEnv(c)).0.log;
            |log| == 31 && log[30].call == Ping && SincePing(log[..30]) == POLL_MS
  {
    hide SincePing;
    hide Prepare;
    hide Decide;
    hide Act;
    hide L1Poll;
    var env := WorstEnv(c);
    WorstPrepare(c, s);
    var p := Prepare(s, env);
    WorstDecide(c, p, env);
    var (t, d) := Decide(c, p, env);
    WorstAct(c, t);
    var (u, applied) := Act(c, t, d, env);
    WorstL1(c, u);
    var v := L1Poll(c, u, applied, env).0;
    assert (v.log + [Event(Ping, env(30))])[..30] == v.log;
  }

  /** The bound of `PollIsBounded` is reached: the daemon has a run, for every setup, whose third
      poll sleeps the full 9.9 seconds between its two pings. */
  lemma PollBoundIsTight(c: Setup)
    requires c.Ok()
    ensures InTime(WorstEnv(c))
    ensures var s := Daemon(c, HoldMode(0), WorstEnv(c), 2);
            var log := StepOnce(c, s, WorstEnv(c)).0.log;
            |log| == 31 && log[30].call == Ping && SincePing(log[..30]) == POLL_MS
  {
    hide Startup;
    hide Turn;
    hide StepOnce;
    hide SincePing;
    var env := WorstEnv(c);
    WorstStartup(c);
    var s := Startup(NewSup(c, HoldMode(0)), env);
    WorstFirstTurn(c, s);
    WorstSecondTurn(c, Turn(c, s, env));
    assert Run(c, s, env, 1) == Turn(c, Run(c, s, env, 0), env);
    assert Run(c, s, env, 2) == Turn(c, Run(c, s, env, 1), env);
    WorstPoll(c, Run(c, s, env, 2));
  }
}
