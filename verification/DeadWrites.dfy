/** A write path that fails for ever under a fan that looks healthy: no run ever escalates it. */
module DeadWrites {
  import opened Basics
  import opened Limits
  import opened Policy
  import opened PolicyTheorems
  import opened Smc
  import opened Machine
  import opened Invariants
  import opened Growth
  import opened Stall
  import opened Verdicts
  import opened ClosedLoop
  import opened FirstTurn
  import opened Forgiven

  /** From call `n` on every write fails, and the fan reads in Manual and on `written`. */
  ghost predicate Dead(env: Env, n: nat, written: nat) {
    forall k: nat :: k >= n ==>
      !env(k).verified && env(k).readable && env(k).mode == Manual && written - 150 <= env(k).rpm <= written + 150
  }

  /** In control of an owned fan with a remembered speed, a strike short of two. */
  predicate Stuck(s: Sup, written: nat) {
    Active(s) && s.manualArmed && s.lastWritten == Some(written) && s.writeFailures <= 1
  }

  lemma DeadAct(c: Setup, s: Sup, d: Decision, env: Env, written: nat)
    requires c.Ok() && Stuck(s, written) && !env(|s.log|).verified
    ensures var (t, applied) := Act(c, s, d, env);
            && t == s.(writeFailures := t.writeFailures, log := t.log) && s.log <= t.log && applied.None?
            && (d.SetSpeed? || d == EscalateMax ==> Target(c, d) != Some(written) ==> t.writeFailures == s.writeFailures + 1)
            && (d == ReturnToAuto ==> t.writeFailures == s.writeFailures + 1)
  {}

  lemma DeadTurn(c: Setup, s: Sup, env: Env, written: nat)
    requires c.Ok() && Inv(c, s) && Stuck(s, written) && Dead(env, |s.log|, written) && !Fresh(s, env(|s.log| + 1).cmd)
    ensures var t := Turn(c, s, env);
            && Stuck(t, written) && t.writeFailures == 0 && t.mode == s.mode && t.lastCmd == s.lastCmd && s.log < t.log
            && StepOnce(c, s, env).1.verified
  {
    hide Failures;
    hide StallFallbacks;
    hide Prepare;
    hide Decide;
    hide Act;
    hide L1Poll;
    hide Dead;
    TurnTallies(c, s, env);
    EntryTallies(c, s, env);
    TurnGrows(c, s, env);
    QuietStart(c, s, env);
    var p := Prepare(s, env);
    DecideTallies(c, p, env);
    var (t, d) := Decide(c, p, env);
    DeadAt(env, |s.log|, written, |t.log|);
    DeadAct(c, t, d, env, written);
    var (u, applied) := L1Entry(c, s, env);
    DeadAt(env, |s.log|, written, |u.log|);
    assert Forgives(u, applied, env);
    ForgivenExactly(c, u, applied, env);
  }

  lemma DeadAt(env: Env, n: nat, written: nat, k: nat)
    requires Dead(env, n, written) && k >= n
    ensures !env(k).verified && env(k).readable && env(k).mode == Manual && written - 150 <= env(k).rpm <= written + 150
  {}

  /** Broken writes need not escalate. Whatever the sensors say or fail to say, while every write
      fails and the fan sits in Manual on the remembered speed, no run without a fresh command ever
      gives up control, asks for the fan's release or remembers another speed, no strike survives a
      turn, and every poll reports verified. */
  lemma {:induction false} BrokenWritesAreForgiven(c: Setup, s: Sup, env: Env, written: nat, n: nat)
    requires c.Ok() && Inv(c, s) && Stuck(s, written) && Dead(env, |s.log|, written) && NothingFresh(s, env)
    ensures var t := Run(c, s, env, n);
            && Stuck(t, written) && (n > 0 ==> t.writeFailures == 0) && s.log <= t.log
            && t.mode == s.mode && t.lastCmd == s.lastCmd
            && StepOnce(c, t, env).1.verified
  {
    hide Turn;
    hide StepOnce;
    hide NothingFresh;
    if n > 0 { BrokenWritesAreForgiven(c, s, env, written, n - 1); }
    RunKeeps(c, s, env, n);
    if n > 0 {
      var r := Run(c, s, env, n - 1);
      RunKeeps(c, s, env, n - 1);
      StillNothingFresh(s, r, env);
      NothingFreshAt(r, env, |r.log| + 1);
      DeadTurn(c, r, env, written);
    }
    var t := Run(c, s, env, n);
    StillNothingFresh(s, t, env);
    NothingFreshAt(t, env, |t.log| + 1);
    DeadTurn(c, t, env, written);
  }

  // ---- two such runs of the daemon ----

  /** The default settings on a fan that turns between 1200 and 6200 rpm. */
  function Defaults(): (c: Setup)
    ensures c.Ok()
  {
    Setup(Curve(1200, 6200, 66, 86, 63), 1200, 6200, 1)
  }

  /** A first turn at 50 degrees in which everything works; then the fan stays at 1200 rpm in Manual,
      every write fails, and the sensors give `later`. */
  function DeadEnv(later: Readings): Env {
    k => Answer(
      true, k <= 6, 0, 0, 1200, if k == 0 then Auto else Manual,
      if k <= 4 then [Some(50_000)] else later, Absent, Physics(false, false, 0))
  }

  lemma DeadFirstTurn(later: Readings)
    ensures var c, env := Defaults(), DeadEnv(later);
            var t := Daemon(c, CurveMode, env, 1);
            Stuck(t, 1200) && t.writeFailures == 0 && t.mode == CurveMode && |t.log| == 11 && t.lastCmd.None? && Inv(c, t)
  {
    var c, env := Defaults(), DeadEnv(later);
    DaemonInvariant(c, CurveMode, env, 1);
    var s := Startup(NewSup(c, CurveMode), env);
    assert s == NewSup(c, CurveMode).(log := s.log) && |s.log| == 2;
    var r: Readings := [Some(50_000)];
    assert ScreenAll(r) == r;
    HottestOfOne(50_000);
    hide Startup;
    hide Turn;
    assert Target(c, Decide(c, Note(Note(s, Ping, env), ReadCmd, env), env).1) == Some(1200);
    hide Decide;
    FirstTurnWorks(c, s, env);
    assert Run(c, s, env, 1) == Turn(c, Run(c, s, env, 0), env);
  }

  lemma {:induction false} RunContinues(c: Setup, s: Sup, env: Env, n: nat)
    requires c.Ok()
    ensures Run(c, s, env, n + 1) == Run(c, Run(c, s, env, 1), env, n)
  {
    hide Turn;
    if n > 0 { RunContinues(c, s, env, n - 1); }
  }

  /** The daemon with a dead write path, from its second turn on. */
  lemma DeadRun(later: Readings, n: nat)
    requires n > 0
    ensures var c, env := Defaults(), DeadEnv(later);
            var s := Daemon(c, CurveMode, env, n);
            && Stuck(s, 1200) && s.writeFailures == 0 && s.mode == CurveMode && |s.log| >= 11 && s.lastCmd.None?
            && StepOnce(c, s, env).1.verified
  {
    hide Startup;
    hide Turn;
    hide StepOnce;
    var c, env := Defaults(), DeadEnv(later);
    DeadFirstTurn(later);
    RunContinues(c, Startup(NewSup(c, CurveMode), env), env, n - 1);
    BrokenWritesAreForgiven(c, Daemon(c, CurveMode, env, 1), env, 1200, n - 1);
  }

  /** What the controller is given in a turn of such a run. */
  lemma DeadPoll(later: Readings, s: Sup)
    requires Stuck(s, 1200) && s.mode == CurveMode && |s.log| >= 11 && s.lastCmd.None?
    ensures PollOf(Defaults(), s, DeadEnv(later)) == Poll(InCurve, ScreenAll(later))
  {
    QuietStart(Defaults(), s, DeadEnv(later));
    hide Prepare;
  }

  lemma DeadPollFirst(later: Readings)
    ensures var c, env := Defaults(), DeadEnv(later);
            PollOf(c, Daemon(c, CurveMode, env, 0), env) == Poll(InCurve, [Some(50_000)])
  {
    var r: Readings := [Some(50_000)];
    assert ScreenAll(r) == r;
    QuietStart(Defaults(), Daemon(Defaults(), CurveMode, DeadEnv(later), 0), DeadEnv(later));
    hide Prepare;
  }

  /** Every turn of such a run, as the controller saw it. */
  lemma DeadHistory(later: Readings, n: nat, i: nat)
    requires i < n
    ensures var c, env := Defaults(), DeadEnv(later);
            var h := History(c, Startup(NewSup(c, CurveMode), env), env, n);
            h[i] == Poll(InCurve, if i == 0 then [Some(50_000)] else ScreenAll(later))
  {
    hide Startup;
    hide PollOf;
    var c, env := Defaults(), DeadEnv(later);
    HistoryAt(c, Startup(NewSup(c, CurveMode), env), env, n, i);
    if i == 0 {
      DeadPollFirst(later);
    } else {
      DeadRun(later, i);
      DeadPoll(later, Daemon(c, CurveMode, env, i));
    }
  }

  lemma StartsFresh(c: Setup, start: RunMode, env: Env)
    requires c.Ok()
    ensures Startup(NewSup(c, start), env).track == Start(c.curve)
  {}

  /** Overheating in control. The daemon with the default settings at 100 degrees, from its second
      turn on, every write failing: from the fourth turn it decides on full speed, the fan stays at
      1200 rpm, control is never given up, no strike survives a turn, every poll reports verified. */
  lemma OverheatingRun(n: nat)
    requires n > 0
    ensures var c, env := Defaults(), DeadEnv([Some(100_000)]);
            var s := Daemon(c, CurveMode, env, n);
            && !s.monitorOnly && !s.restorePending && s.manualArmed
            && s.writeFailures == 0 && s.lastWritten == Some(1200)
            && StepOnce(c, s, env).1.verified
            && (n >= 3 ==> StepOnce(c, s, env).1.decision == EscalateMax)
  {
    hide Startup;
    hide Turn;
    hide StepOnce;
    hide History;
    hide Replay;
    hide PollOf;
    var later: Readings := [Some(100_000)];
    var c, env := Defaults(), DeadEnv(later);
    DeadRun(later, n);
    if n >= 3 {
      StartsFresh(c, CurveMode, env);
      EscalatesExactlyWhenHot(c, Startup(NewSup(c, CurveMode), env), env, n);
      DeadIsActive(later, Daemon(c, CurveMode, env, n));
      DeadRun(later, n - 1);
      DeadRun(later, n - 2);
      DeadFeelsHot(Daemon(c, CurveMode, env, n));
      DeadFeelsHot(Daemon(c, CurveMode, env, n - 1));
      DeadFeelsHot(Daemon(c, CurveMode, env, n - 2));
    }
  }

  lemma DeadIsActive(later: Readings, s: Sup)
    requires Stuck(s, 1200) && |s.log| >= 11 && s.lastCmd.None?
    ensures !Prepare(s, DeadEnv(later)).Passive()
  {
    QuietStart(Defaults(), s, DeadEnv(later));
    hide Prepare;
  }

  lemma DeadFeelsHot(s: Sup)
    requires Stuck(s, 1200) && |s.log| >= 11 && s.lastCmd.None?
    ensures FeelsHot(Defaults(), s, DeadEnv([Some(100_000)]))
  {
    QuietStart(Defaults(), s, DeadEnv([Some(100_000)]));
    hide Prepare;
    var a := SensorsOf(s, DeadEnv([Some(100_000)]));
    assert a.readings == [Some(100_000)];
    assert Feels(a, 100_000);
  }

  lemma {:induction false} DeadLostTail(n: nat)
    ensures var c, env := Defaults(), DeadEnv([]);
            LostTail(History(c, Startup(NewSup(c, CurveMode), env), env, n + 1)) == n
  {
    hide Startup;
    hide Run;
    hide PollOf;
    var c, env := Defaults(), DeadEnv([]);
    var first := Startup(NewSup(c, CurveMode), env);
    var h := History(c, first, env, n + 1);
    DeadHistory([], n + 1, n);
    HottestOfOne(50_000);
    assert h[..n] == History(c, first, env, n);
    if n > 0 {
      assert ScreenAll([]) == [];
      DeadLostTail(n - 1);
    }
  }

  /** Blind in control. The same with every sensor lost from the second turn on: every third turn
      decides to return the fan, that write fails, and it is forgiven in the same poll. */
  lemma BlindRun(n: nat)
    requires n > 0
    ensures var c, env := Defaults(), DeadEnv([]);
            var s := Daemon(c, CurveMode, env, n);
            && !s.monitorOnly && !s.restorePending && s.manualArmed
            && s.writeFailures == 0 && s.lastWritten == Some(1200)
            && StepOnce(c, s, env).1.verified
            && (StepOnce(c, s, env).1.decision == ReturnToAuto <==> n % SENSOR_LOSS_POLLS == 0)
  {
    hide Startup;
    hide Turn;
    hide StepOnce;
    hide History;
    hide Replay;
    hide LastDecision;
    var c, env := Defaults(), DeadEnv([]);
    var first := Startup(NewSup(c, CurveMode), env);
    DeadRun([], n);
    StartsFresh(c, CurveMode, env);
    DaemonFollowsPolicy(c, first, env, n);
    DeadLostTail(n);
    DeadHistory([], n + 1, n);
    ExactStreaks(c.curve, History(c, first, env, n + 1));
  }
}
