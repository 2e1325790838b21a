/** Who owns the fan: the physical fan mode against what the supervisor believes, the pending
    restore, and the restore path that must be proven before any control. */
module Ownership {
  import opened Basics
  import opened Policy
  import opened Smc
  import opened Machine
  import opened Invariants
  import opened Growth

  // ---- the physical fan ----

  /** The firmware may take the fan back before any call. */
  function Before(mode: FanMode, e: Event): FanMode { if e.answer.physics.reclaimed then Auto else mode }

  /** A verified mode write takes effect; an unverified one does when the hardware adopted it late. */
  function FanAfter(mode: FanMode, e: Event): FanMode {
    var took := e.answer.verified || e.answer.physics.took;
    match e.call
    case SetMode(want, _) => if took then want else Before(mode, e)
    case Probe => if took then Auto else Before(mode, e)
    case _ => Before(mode, e)
  }

  /** The fan's mode after a log, having been `inherited` before it. */
  function Fan(inherited: FanMode, log: seq<Event>): FanMode {
    if log == [] then inherited else FanAfter(Fan(inherited, log[..|log| - 1]), log[|log| - 1])
  }

  /** An event that decides the fan's mode: a mode write that took, or a reclaim. */
  predicate Moves(e: Event) {
    ((e.call.SetMode? || e.call == Probe) && (e.answer.verified || e.answer.physics.took)) || e.answer.physics.reclaimed
  }

  /** A ghost take: a control write of Manual that was reported failed and that the hardware
      adopted all the same. */
  predicate GhostTake(e: Event) { e.call == SetMode(Manual, AtAct) && !e.answer.verified && e.answer.physics.took }

  /** Loose: the last thing that decided the fan's mode was a ghost take, or nothing has decided it
      since it was inherited in Manual. */
  predicate Loose(inherited: FanMode, log: seq<Event>) {
    if log == [] then inherited == Manual
    else if Moves(log[|log| - 1]) then GhostTake(log[|log| - 1])
    else Loose(inherited, log[..|log| - 1])
  }

  /** Fan reads tell the truth. */
  predicate Truthful(inherited: FanMode, log: seq<Event>) {
    log == [] ||
    var e := log[|log| - 1];
    && Truthful(inherited, log[..|log| - 1])
    && (e.call.ReadFan? && e.answer.readable ==> e.answer.mode == Before(Fan(inherited, log[..|log| - 1]), e))
  }

  lemma AskFan(inherited: FanMode, s: Sup, call: Call, env: Env)
    ensures var t := Ask(s, call, env).0;
            var e := Event(call, env(|s.log|));
            var fan := Fan(inherited, s.log);
            && Fan(inherited, t.log) == FanAfter(fan, e)
            && (Loose(inherited, t.log) <==> if Moves(e) then GhostTake(e) else Loose(inherited, s.log))
            && (Truthful(inherited, t.log) <==>
                  && Truthful(inherited, s.log)
                  && (call.ReadFan? && e.answer.readable ==> e.answer.mode == Before(fan, e)))
  {
    var e := Event(call, env(|s.log|));
    assert (s.log + [e])[..|s.log|] == s.log;
  }

  /** A fan that is physically in Manual is owned or loose. */
  ghost predicate Owned(inherited: FanMode, s: Sup) {
    Truthful(inherited, s.log) ==> (Fan(inherited, s.log) == Manual ==> s.manualArmed || Loose(inherited, s.log))
  }

  /** Calls that write no mode leave ownership alone. */
  lemma NoteOwns(m: FanMode, s: Sup, t: Sup, call: Call, env: Env)
    requires Owned(m, s) && t.log == s.log && t.manualArmed == s.manualArmed && !call.SetMode? && call != Probe
    ensures Owned(m, Ask(t, call, env).0)
  {
    hide Fan;
    hide Truthful;
    hide Loose;
    AskFan(m, t, call, env);
  }

  lemma FailOwns(m: FanMode, s: Sup, env: Env)
    requires Owned(m, s)
    ensures Owned(m, FailWrite(s, env))
  {
    hide Fan;
    hide Truthful;
    hide Loose;
    AskFan(m, s, SetMode(Auto, OnThirdStrike), env);
  }

  lemma EnterManualOwns(m: FanMode, s: Sup, site: Site, env: Env)
    requires Owned(m, s) && (site == AtAct || s.manualArmed)
    ensures Owned(m, EnterManual(s, site, env).0)
  {
    hide Fan;
    hide Truthful;
    hide Loose;
    hide FailWrite;
    AskFan(m, s, SetMode(Manual, site), env);
    if !env(|s.log|).verified { FailOwns(m, Ask(s, SetMode(Manual, site), env).0, env); }
  }

  lemma PrepareOwns(m: FanMode, s: Sup, env: Env)
    requires Owned(m, s)
    ensures Owned(m, Prepare(s, env))
  {
    hide Fan;
    hide Truthful;
    hide Loose;
    hide ApplyCmdFile;
    hide AutoRestoreRetry;
    AskFan(m, s, Ping, env);
    var t := Note(s, Ping, env);
    CommandOwns(m, t, env);
    RetryOwns(m, ApplyCmdFile(t, env), env);
  }

  lemma CommandOwns(m: FanMode, s: Sup, env: Env)
    requires Owned(m, s)
    ensures Owned(m, ApplyCmdFile(s, env))
  {
    hide Fan;
    hide Truthful;
    hide Loose;
    hide ApplyMode;
    AskFan(m, s, ReadCmd, env);
    var (t, a) := Ask(s, ReadCmd, env);
    if Fresh(t, a.cmd) { ApplyModeOwns(m, t.(lastCmd := Some(a.cmd.doc)), a.cmd.doc.mode, env); }
  }

  lemma ApplyModeOwns(m: FanMode, s: Sup, requested: RunMode, env: Env)
    requires Owned(m, s)
    ensures Owned(m, ApplyMode(s, requested, env))
  {
    hide Fan;
    hide Truthful;
    hide Loose;
    hide FailWrite;
    if requested != ObserveMode {
      AskFan(m, s, Rearmed, env);
    } else if s.mode != ObserveMode && s.manualArmed {
      AskFan(m, s, SetMode(Auto, AtCommand), env);
      FailOwns(m, Ask(s, SetMode(Auto, AtCommand), env).0.(restorePending := true), env);
    }
  }

  lemma RetryOwns(m: FanMode, s: Sup, env: Env)
    requires Owned(m, s)
    ensures Owned(m, AutoRestoreRetry(s, env))
  {
    hide Fan;
    hide Truthful;
    hide Loose;
    AskFan(m, s, ReadFan(AtRetry), env);
    AskFan(m, Ask(s, ReadFan(AtRetry), env).0, SetMode(Auto, AtRetry), env);
  }

  lemma ActOwns(c: Setup, m: FanMode, s: Sup, d: Decision, env: Env)
    requires c.Ok() && Owned(m, s)
    ensures Owned(m, Act(c, s, d, env).0)
  {
    hide Fan;
    hide Truthful;
    hide Loose;
    hide FailWrite;
    hide WriteControlled;
    match d
    case SetSpeed(rpm) => WriteOwns(c, m, s, rpm, env);
    case EscalateMax => WriteOwns(c, m, s, c.curve.maxRpm, env);
    case ReturnToAuto =>
      AskFan(m, s, SetMode(Auto, AtAct), env);
      if s.manualArmed { FailOwns(m, Ask(s, SetMode(Auto, AtAct), env).0, env); }
    case Observe =>
  }

  lemma WriteOwns(c: Setup, m: FanMode, s: Sup, rpm: nat, env: Env)
    requires c.Ok() && Owned(m, s)
    ensures Owned(m, WriteControlled(c, s, rpm, env).0)
  {
    hide Fan;
    hide Truthful;
    hide Loose;
    hide FailWrite;
    hide EnterManual;
    EnterManualOwns(m, s, AtAct, env);
    var (t, armed) := if s.manualArmed then (s, true) else EnterManual(s, AtAct, env);
    var call := WriteSpeed(Clamp(rpm, c.hwMin, c.hwMax), AtAct);
    AskFan(m, t, call, env);
    FailOwns(m, Ask(t, call, env).0, env);
  }

  lemma TrackOwns(c: Setup, m: FanMode, s: Sup, prev: Option<nat>, rpm: nat, applied: Option<nat>, failed: bool, env: Env)
    requires c.Ok() && Owned(m, s)
    ensures Owned(m, L1Track(c, s, prev, rpm, applied, failed, env).0)
  {
    hide Fan;
    hide Truthful;
    hide Loose;
    hide Reassert;
    hide StallCheck;
    hide Owned;
    if s.lastWritten.Some? {
      var written := s.lastWritten.value;
      ReassertOwns(c, m, s, written, env);
      var t := if !s.monitorOnly && OffTarget(written, rpm) && applied.None? then Reassert(c, s, written, env).0 else s;
      StallOwns(m, t, prev, rpm, written, env);
      var u := StallCheck(t, prev, rpm, written, env).0;
      NoteOwns(m, u, u.(writeFailures := 0), Healthy, env);
    }
  }

  lemma ReassertOwns(c: Setup, m: FanMode, s: Sup, written: nat, env: Env)
    requires c.Ok() && Owned(m, s)
    ensures Owned(m, Reassert(c, s, written, env).0)
  {
    hide Fan;
    hide Truthful;
    hide Loose;
    hide FailWrite;
    var call := WriteSpeed(Clamp(written, c.hwMin, c.hwMax), AtL1);
    AskFan(m, s, call, env);
    FailOwns(m, Ask(s, call, env).0, env);
  }

  lemma StallOwns(m: FanMode, s: Sup, prev: Option<nat>, rpm: nat, written: nat, env: Env)
    requires Owned(m, s)
    ensures Owned(m, StallCheck(s, prev, rpm, written, env).0)
  {
    hide Fan;
    hide Truthful;
    hide Loose;
    AskFan(m, s, SetMode(Auto, OnStall), env);
  }

  lemma L1Owns(c: Setup, m: FanMode, s: Sup, applied: Option<nat>, env: Env)
    requires c.Ok() && Owned(m, s)
    ensures Owned(m, L1Poll(c, s, applied, env).0)
  {
    hide Fan;
    hide Truthful;
    hide Loose;
    hide FailWrite;
    hide EnterManual;
    hide L1Track;
    AskFan(m, s, ReadFan(AtL1), env);
    var (t, fan) := Ask(s, ReadFan(AtL1), env);
    FailOwns(m, t, env);
    var u := t.(prevActual := Some(fan.rpm));
    if fan.readable && u.manualArmed && !u.restorePending {
      EnterManualOwns(m, u, AtL1, env);
      var (v, held) := if fan.mode != Manual then EnterManual(u, AtL1, env) else (u, true);
      TrackOwns(c, m, v, s.prevActual, fan.rpm, applied, !held, env);
    }
  }

  lemma TurnOwns(c: Setup, m: FanMode, s: Sup, env: Env)
    requires c.Ok() && Inv(c, s) && Owned(m, s)
    ensures Owned(m, Turn(c, s, env))
  {
    hide Fan;
    hide Truthful;
    hide Loose;
    hide Prepare;
    hide Decide;
    hide Act;
    hide L1Poll;
    PrepareOwns(m, s, env);
    var p := Prepare(s, env);
    PrepareKeeps(c, s, env);
    DecideKeeps(c, p, env);
    AskFan(m, p, ReadSensors, env);
    var (t, d) := Decide(c, p, env);
    ActOwns(c, m, t, d, env);
    var (u, applied) := Act(c, t, d, env);
    L1Owns(c, m, u, applied, env);
    AskFan(m, L1Poll(c, u, applied, env).0, Ping, env);
    AskFan(m, StepOnce(c, s, env).0, Nap(c.intervalS * 1000), env);
  }

  lemma {:induction false} RunOwns(c: Setup, m: FanMode, s: Sup, env: Env, n: nat)
    requires c.Ok() && Inv(c, s) && Owned(m, s)
    ensures Owned(m, Run(c, s, env, n))
  {
    hide Turn;
    if n > 0 {
      RunOwns(c, m, s, env, n - 1);
      RunKeeps(c, s, env, n - 1);
      TurnOwns(c, m, Run(c, s, env, n - 1), env);
    }
  }

  lemma Inherited(m: FanMode)
    ensures Fan(m, []) == m && Truthful(m, []) && (Loose(m, []) <==> m == Manual)
  {}

  /** What startup leaves the fan in. With a proven restore path it is always Auto, whatever a
      predecessor left behind. Without one the fan stays in Manual exactly when it was inherited
      so, nobody took it back, the probe's write did not take, and the reconcile either could
      not read the fan or could not restore it. */
  lemma StartupFan(c: Setup, start: RunMode, m: FanMode, env: Env)
    requires c.Ok() && Truthful(m, Startup(NewSup(c, start), env).log)
    ensures var s := Startup(NewSup(c, start), env);
            Fan(m, s.log) == Manual <==>
              && m == Manual
              && !env(0).physics.reclaimed && !env(1).physics.reclaimed
              && !env(1).verified && !env(1).physics.took
              && (env(0).readable ==>
                    !env(2).verified && !env(2).physics.took && !env(2).physics.reclaimed)
  {
    hide Fan;
    hide Truthful;
    hide Loose;
    var s := NewSup(c, start);
    Inherited(m);
    AskFan(m, s, ReadFan(AtStartup), env);
    var t := Ask(s, ReadFan(AtStartup), env).0;
    AskFan(m, t, Probe, env);
    var (u, probe) := Ask(t, Probe, env);
    var v := u.(l2Absent := !probe.verified, mode := if probe.verified then u.mode else ObserveMode);
    AskFan(m, v, SetMode(Auto, AtStartup), env);
  }

  /** How startup ends. It gives up control exactly when it inherited a fan it could not confirm in
      Auto: an unreadable one although control was configured and the restore path proven, or one
      in Manual that a verified write could not restore. Then, and when the restore path is not
      proven, it ends in Observe; otherwise in the configured mode. Nothing is owned, written,
      pending or counted yet. */
  lemma StartupVerdict(c: Setup, start: RunMode, env: Env)
    requires c.Ok()
    ensures var s, blank := Startup(NewSup(c, start), env), NewSup(c, start);
            && (s.monitorOnly <==>
                  if env(0).readable then env(0).mode == Manual && !env(2).verified
                  else start != ObserveMode && env(1).verified)
            && !s.manualArmed && !s.restorePending && s.lastWritten.None? && s.prevActual.None? && s.lastCmd.None?
            && s.writeFailures == s.stallPolls == s.offTargetPolls == 0 && s.track == Start(c.curve)
            && (blank.mode == if start.HoldMode? then HoldMode(Clamp(start.rpm, c.hwMin, c.hwMax)) else start)
            && s == blank.(mode := if s.monitorOnly || !env(1).verified then ObserveMode else blank.mode,
                           monitorOnly := s.monitorOnly, l2Absent := !env(1).verified, log := s.log)
  {
    assert NewSup(c, start).log == [];
  }

  lemma StartupOwns(c: Setup, start: RunMode, m: FanMode, env: Env)
    requires c.Ok()
    ensures Owned(m, Startup(NewSup(c, start), env))
  {
    hide Fan;
    hide Truthful;
    hide Loose;
    var s := NewSup(c, start);
    Inherited(m);
    AskFan(m, s, ReadFan(AtStartup), env);
    var t := Ask(s, ReadFan(AtStartup), env).0;
    AskFan(m, t, Probe, env);
    var (u, probe) := Ask(t, Probe, env);
    var v := u.(l2Absent := !probe.verified, mode := if probe.verified then u.mode else ObserveMode);
    AskFan(m, v, SetMode(Auto, AtStartup), env);
  }

  lemma {:induction false} LooseIsManual(m: FanMode, log: seq<Event>)
    requires Loose(m, log)
    ensures Fan(m, log) == Manual
  {
    if log != [] && !Moves(log[|log| - 1]) { LooseIsManual(m, log[..|log| - 1]); }
  }

  /** Forgotten, exactly. In every run, from either inherited mode, with truthful reads and any
      faults: a fan the supervisor does not own is in Manual if and only if it is loose. So is one
      that it has given up control of without a release pending. */
  lemma ForgottenExactlyWhenLoose(c: Setup, start: RunMode, m: FanMode, env: Env, n: nat)
    requires c.Ok()
    ensures var s := Daemon(c, start, env, n);
            Truthful(m, s.log) && (!s.manualArmed || (s.Passive() && !s.restorePending)) ==>
              (Fan(m, s.log) == Manual <==> Loose(m, s.log))
  {
    hide Startup;
    hide Turn;
    hide Fan;
    hide Truthful;
    hide Loose;
    StartupOwns(c, start, m, env);
    StartupEstablishes(c, start, env);
    RunOwns(c, m, Startup(NewSup(c, start), env), env, n);
    DaemonInvariant(c, start, env, n);
    var s := Daemon(c, start, env, n);
    if Loose(m, s.log) { LooseIsManual(m, s.log); }
  }

  predicate NoGhostTake(log: seq<Event>) { log == [] || (NoGhostTake(log[..|log| - 1]) && !GhostTake(log[|log| - 1])) }

  /** Without a ghost take a loose fan has been in Manual all along. */
  lemma {:induction false} LooseAllAlong(m: FanMode, log: seq<Event>, k: nat)
    requires Loose(m, log) && NoGhostTake(log) && k <= |log|
    ensures Fan(m, log[..k]) == Manual
  {
    if k == |log| {
      assert log[..k] == log;
      LooseIsManual(m, log);
    } else {
      LooseAllAlong(m, log[..|log| - 1], k);
      assert log[..|log| - 1][..k] == log[..k];
    }
  }

  /** No stranded fan. In any run that startup begins with the fan in Auto, with truthful reads,
      no ghost take and any other faults: whenever the fan is physically in Manual at a turn
      boundary the supervisor owns it, and if it has given up control it is retrying the release. */
  lemma NoStrandedFan(c: Setup, start: RunMode, m: FanMode, env: Env, n: nat)
    requires c.Ok()
    requires Fan(m, Startup(NewSup(c, start), env).log) == Auto
    ensures var s := Daemon(c, start, env, n);
            Truthful(m, s.log) && NoGhostTake(s.log) && Fan(m, s.log) == Manual ==>
              s.manualArmed && (s.Passive() ==> s.restorePending)
  {
    hide Startup;
    hide Turn;
    hide Fan;
    hide Truthful;
    hide Loose;
    hide NoGhostTake;
    ForgottenExactlyWhenLoose(c, start, m, env, n);
    DaemonInvariant(c, start, env, n);
    var first, s := Startup(NewSup(c, start), env), Daemon(c, start, env, n);
    RunGrows(c, first, env, n);
    assert s.log[..|first.log|] == first.log;
    if NoGhostTake(s.log) && Loose(m, s.log) { LooseAllAlong(m, s.log, |first.log|); }
  }

  /** What follows a ghost take: an observe command finds nothing to release, so the fan stays in
      Manual, passive, with no restore pending. */
  lemma GhostTakeStrands(m: FanMode, s: Sup, env: Env)
    requires Fan(m, s.log) == Manual && !s.manualArmed && !s.restorePending && !s.Passive()
    requires var a := env(|s.log|);
             !a.physics.reclaimed && Fresh(s, a.cmd) && a.cmd.doc.mode == ObserveMode
    ensures var t := ApplyCmdFile(s, env);
            Fan(m, t.log) == Manual && t.Passive() && !t.manualArmed && !t.restorePending
  {
    hide Fan;
    AskFan(m, s, ReadCmd, env);
  }

  // ---- a run in which that happens ----

  /** Everything works but call 5, a write of Manual that takes effect only after it was reported
      as failed; call 10 reads an observe command. */
  function GhostEnv(): Env {
    k => Answer(
      true, k != 5, 0, 0, 0, if k <= 5 then Auto else Manual, [Some(50_000)],
      if k == 10 then Content(Request(ObserveMode, 0)) else Absent,
      Physics(k == 5, false, 0))
  }

  /** A truthful log of `n` calls that leaves the fan in `mode`. */
  ghost predicate Reached(s: Sup, n: nat, mode: FanMode) {
    |s.log| == n && Truthful(Auto, s.log) && Fan(Auto, s.log) == mode
  }

  lemma GhostAsk(s: Sup, n: nat, mode: FanMode, call: Call)
    requires Reached(s, n, mode) && (call.ReadFan? ==> GhostEnv()(n).mode == mode)
    ensures var t := Ask(s, call, GhostEnv()).0;
            Reached(t, n + 1, FanAfter(mode, Event(call, GhostEnv()(n))))
  {
    var e := Event(call, GhostEnv()(n));
    assert (s.log + [e])[..n] == s.log;
  }

  lemma GhostStartup(c: Setup)
    requires c.Ok()
    ensures var s := Startup(NewSup(c, CurveMode), GhostEnv());
            Reached(s, 2, Auto) && s == NewSup(c, CurveMode).(log := s.log)
  {
    hide Fan;
    hide Truthful;
    var s := NewSup(c, CurveMode);
    assert Reached(s, 0, Auto) by { Inherited(Auto); NothingRead(); }
    GhostAsk(s, 0, Auto, ReadFan(AtStartup));
    GhostAsk(Note(s, ReadFan(AtStartup), GhostEnv()), 1, Auto, Probe);
  }

  lemma NothingRead()
    ensures Truthful(Auto, [])
  {}

  lemma GhostFirstTurn(c: Setup, s: Sup)
    requires c.Ok() && Reached(s, 2, Auto) && s == NewSup(c, CurveMode).(log := s.log)
    ensures var t := Turn(c, s, GhostEnv());
            && Reached(t, 9, Manual)
            && t == s.(track := t.track, prevActual := t.prevActual, writeFailures := 1, log := t.log)
  {
    hide Fan;
    hide Truthful;
    var env := GhostEnv();
    GhostAsk(s, 2, Auto, Ping);
    GhostAsk(Note(s, Ping, env), 3, Auto, ReadCmd);
    var p := Prepare(s, env);
    GhostAsk(p, 4, Auto, ReadSensors);
    GhostDecides(c, p);
    hide Prepare;
    hide Decide;
    var (t, d) := Decide(c, p, env);
    GhostAsk(t, 5, Auto, SetMode(Manual, AtAct));
    var u := Act(c, t, d, env).0;
    GhostAsk(u, 6, Manual, ReadFan(AtL1));
    hide Act;
    var v := L1Poll(c, u, None, env).0;
    GhostAsk(v, 7, Manual, Ping);
    GhostAsk(Note(v, Ping, env), 8, Manual, Nap(c.intervalS * 1000));
  }

  lemma GhostDecides(c: Setup, s: Sup)
    requires c.Ok() && |s.log| == 4 && !s.monitorOnly && s.mode == CurveMode && s.track == Start(c.curve)
    ensures var (t, d) := Decide(c, s, GhostEnv());
            d.SetSpeed? && t == Note(s, ReadSensors, GhostEnv()).(track := t.track)
  {
    assert ScreenAll(GhostEnv()(4).readings) == [Some(50_000)];
    assert [Some(50_000)][..0] == [];
    assert Hottest([Some(50_000)]) == Some(50_000);
  }

  lemma GhostSecondTurn(c: Setup, s: Sup)
    requires c.Ok() && Reached(s, 9, Manual) && s.lastCmd.None? && s.mode == CurveMode
    requires !s.monitorOnly && !s.manualArmed && !s.restorePending
    ensures var t := Turn(c, s, GhostEnv());
            Reached(t, 15, Manual) && t.Passive() && !t.manualArmed && !t.restorePending
  {
    hide Fan;
    hide Truthful;
    var env := GhostEnv();
    GhostAsk(s, 9, Manual, Ping);
    GhostAsk(Note(s, Ping, env), 10, Manual, ReadCmd);
    GhostTakeStrands(Auto, Note(s, Ping, env), env);
    hide ApplyMode;
    var p := Prepare(s, env);
    GhostAsk(p, 11, Manual, ReadSensors);
    hide Prepare;
    var t := Decide(c, p, env).0;
    GhostAsk(t, 12, Manual, ReadFan(AtL1));
    hide Decide;
    var v := L1Poll(c, t, None, env).0;
    GhostAsk(v, 13, Manual, Ping);
    GhostAsk(Note(v, Ping, env), 14, Manual, Nap(c.intervalS * 1000));
  }

  /** A run from a fan in Auto, with truthful reads, that strands the fan: in Manual, with control
      given up, not owned and with no release pending. Its one oddity is the ghost take. */
  lemma StrandedRun(c: Setup)
    requires c.Ok()
    ensures var s := Daemon(c, CurveMode, GhostEnv(), 2);
            && Fan(Auto, Startup(NewSup(c, CurveMode), GhostEnv()).log) == Auto
            && Truthful(Auto, s.log) && Fan(Auto, s.log) == Manual
            && s.Passive() && !s.manualArmed && !s.restorePending
  {
    hide Startup;
    hide Turn;
    hide Fan;
    hide Truthful;
    GhostStartup(c);
    var s := Startup(NewSup(c, CurveMode), GhostEnv());
    GhostFirstTurn(c, s);
    var t := Turn(c, s, GhostEnv());
    GhostSecondTurn(c, t);
    assert Run(c, s, GhostEnv(), 1) == Turn(c, Run(c, s, GhostEnv(), 0), GhostEnv());
    assert Run(c, s, GhostEnv(), 2) == Turn(c, Run(c, s, GhostEnv(), 1), GhostEnv());
  }
}
