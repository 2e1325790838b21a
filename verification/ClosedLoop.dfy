/** The parts put together: the daemon's decisions are the policy's, and a held speed is reached. */
module ClosedLoop {
  import opened Basics
  import opened Limits
  import opened Policy
  import opened PolicyTheorems
  import opened Smc
  import opened Machine
  import opened Invariants
  import opened Control
  import opened HonestFan

  // ---- the daemon's controller is the policy, folded over its own history ----

  /** How a turn drives the controller. */
  function PollOf(c: Setup, s: Sup, env: Env): Poll
    requires c.Ok()
  {
    var p := Prepare(s, env);
    var kind := if p.Passive() then InObserve
                else match p.mode
                     case CurveMode => InCurve
                     case HoldMode(rpm) => InHold(rpm)
                     case ObserveMode => InObserve;
    Poll(kind, Sense(p, env).1)
  }

  /** The first `n` turns of a run, as the controller saw them. */
  function History(c: Setup, s: Sup, env: Env, n: nat): (h: seq<Poll>)
    requires c.Ok()
    ensures |h| == n
  {
    if n == 0 then [] else History(c, s, env, n - 1) + [PollOf(c, Run(c, s, env, n - 1), env)]
  }

  lemma PrepareKeepsTrack(s: Sup, env: Env)
    ensures Prepare(s, env).track == s.track
  {
    hide ApplyMode;
    hide AutoRestoreRetry;
    var p := Note(s, Ping, env);
    var (u, a) := Ask(p, ReadCmd, env);
    if Fresh(u, a.cmd) { ApplyModeGate(u.(lastCmd := Some(a.cmd.doc)), a.cmd.doc.mode, env); }
    RetryKeepsMode(ApplyCmdFile(p, env), env);
  }

  lemma DecideIsPolicy(c: Setup, s: Sup, env: Env)
    requires c.Ok()
    ensures var p := Prepare(s, env);
            var (t, d) := Decide(c, p, env);
            (t.track, d) == StepKind(c.curve, p.track, PollOf(c, s, env))
  {
    hide Prepare;
    hide StepCurve;
    hide StepHold;
    hide StepObserve;
  }

  lemma TurnIsPolicy(c: Setup, s: Sup, env: Env)
    requires c.Ok()
    ensures (Turn(c, s, env).track, StepOnce(c, s, env).1.decision) == StepKind(c.curve, s.track, PollOf(c, s, env))
  {
    PrepareKeepsTrack(s, env);
    DecideIsPolicy(c, s, env);
    hide Prepare;
    hide Decide;
    hide Act;
    hide L1Poll;
    hide StepKind;
    hide PollOf;
    var (t, d) := Decide(c, Prepare(s, env), env);
    ActFrame(c, t, d, env);
    var (u, applied) := Act(c, t, d, env);
    L1Frame(c, u, applied, env);
  }

  /** In every run the controller has been stepped exactly once per turn, so its state is the
      policy folded over the turns so far and each decision is the policy's last one. Every
      theorem about policy histories is thereby one about the daemon. */
  lemma {:induction false} DaemonFollowsPolicy(c: Setup, s: Sup, env: Env, n: nat)
    requires c.Ok() && s.track == Start(c.curve)
    ensures Run(c, s, env, n).track == Replay(c.curve, History(c, s, env, n))
    ensures StepOnce(c, Run(c, s, env, n), env).1.decision == LastDecision(c.curve, History(c, s, env, n + 1))
  {
    hide Turn;
    hide StepOnce;
    hide StepKind;
    hide PollOf;
    var h := History(c, s, env, n);
    if n > 0 {
      DaemonFollowsPolicy(c, s, env, n - 1);
      var g, r := History(c, s, env, n - 1), Run(c, s, env, n - 1);
      TurnIsPolicy(c, r, env);
      assert h[..|h| - 1] == g && h[|h| - 1] == PollOf(c, r, env);
    }
    var more := History(c, s, env, n + 1);
    assert more[..|more| - 1] == h;
    TurnIsPolicy(c, Run(c, s, env, n), env);
  }

  // ---- what a turn senses ----

  /** A sensor answer holds the reading `t`, and it is between 0 and 120 degrees. */
  predicate Feels(a: Answer, t: int) { a.readable && Some(t) in a.readings && 0 <= t <= 120_000 }

  /** The answer to a turn's sensor call. */
  function SensorsOf(s: Sup, env: Env): Answer { env(|Prepare(s, env).log|) }

  lemma ScreenedFeels(a: Answer, t: int)
    ensures Some(t) in ScreenAll(a.readings) && a.readable <==> Feels(a, t)
  {
    var r := ScreenAll(a.readings);
    if Feels(a, t) {
      var i :| 0 <= i < |a.readings| && a.readings[i] == Some(t);
      assert r[i] == Some(t);
    }
    if i :| 0 <= i < |r| && r[i] == Some(t) { assert a.readings[i] == Some(t); }
  }

  /** The temperature a turn acts on is the hottest reading in range that any sensor gave, and there
      is none exactly when no sensor gave one or the whole read failed. */
  lemma SensesTheHottest(c: Setup, s: Sup, env: Env)
    requires c.Ok()
    ensures var t, a := Hottest(PollOf(c, s, env).readings), SensorsOf(s, env);
            && (t.None? <==> forall u :: !Feels(a, u))
            && (t.Some? ==> Feels(a, t.value) && forall u :: Feels(a, u) ==> u <= t.value)
  {
    hide Prepare;
    var r, a := PollOf(c, s, env).readings, SensorsOf(s, env);
    HottestIsMaximum(r);
    forall u: int
      ensures Feels(a, u) <==> Some(u) in r
    {
      ScreenedFeels(a, u);
    }
    if Hottest(r).None? {
      forall u: int
        ensures !Feels(a, u)
      {
        assert forall i :: 0 <= i < |r| ==> r[i] != Some(u);
      }
    }
  }

  /** Some sensor gave a reading in range of at least `max - 1` degrees. */
  ghost predicate FeelsHot(c: Setup, s: Sup, env: Env) {
    exists t :: Feels(SensorsOf(s, env), t) && t >= (c.curve.maxC - 1) * 1000
  }

  lemma HotIsFelt(c: Setup, s: Sup, env: Env)
    requires c.Ok()
    ensures IsHot(c.curve, PollOf(c, s, env)) <==> FeelsHot(c, s, env)
  {
    SensesTheHottest(c, s, env);
    hide PollOf;
    hide SensorsOf;
    hide Feels;
  }

  lemma {:induction false} HistoryAt(c: Setup, s: Sup, env: Env, n: nat, i: nat)
    requires c.Ok() && i < n
    ensures History(c, s, env, n)[i] == PollOf(c, Run(c, s, env, i), env)
  {
    hide PollOf;
    hide Run;
    if i < n - 1 { HistoryAt(c, s, env, n - 1, i); }
  }

  lemma TurnFeelsHot(c: Setup, s: Sup, env: Env, n: nat, i: nat)
    requires c.Ok() && i <= n
    ensures IsHot(c.curve, History(c, s, env, n + 1)[i]) <==> FeelsHot(c, Run(c, s, env, i), env)
    ensures History(c, s, env, n + 1)[i].kind.InObserve? <==> Prepare(Run(c, s, env, i), env).Passive()
  {
    HistoryAt(c, s, env, n + 1, i);
    HotIsFelt(c, Run(c, s, env, i), env);
    hide FeelsHot;
    hide Prepare;
    hide IsHot;
    hide Run;
    hide History;
  }

  /** Escalation in the daemon: a turn escalates exactly when it is in control once the command file
      is read, and it and the two before it each had a sensor at `max - 1` degrees or more. */
  lemma EscalatesExactlyWhenHot(c: Setup, s: Sup, env: Env, n: nat)
    requires c.Ok() && s.track == Start(c.curve)
    ensures StepOnce(c, Run(c, s, env, n), env).1.decision == EscalateMax <==>
              && !Prepare(Run(c, s, env, n), env).Passive() && n >= 2
              && FeelsHot(c, Run(c, s, env, n), env)
              && FeelsHot(c, Run(c, s, env, n - 1), env)
              && FeelsHot(c, Run(c, s, env, n - 2), env)
  {
    hide Replay;
    hide Run;
    hide StepOnce;
    hide History;
    hide LastDecision;
    hide FeelsHot;
    hide Prepare;
    hide IsHot;
    DaemonFollowsPolicy(c, s, env, n);
    var h := History(c, s, env, n + 1);
    ExactStreaks(c.curve, h);
    TurnFeelsHot(c, s, env, n, n);
    if n >= 2 {
      TurnFeelsHot(c, s, env, n, n - 1);
      TurnFeelsHot(c, s, env, n, n - 2);
      assert (forall i :: n - 2 <= i < n + 1 ==> IsHot(c.curve, h[i]))
        <==> IsHot(c.curve, h[n]) && IsHot(c.curve, h[n - 1]) && IsHot(c.curve, h[n - 2]);
    }
  }

  /** Sensor loss in the daemon: a turn decides to return the fan exactly when it is active and the
      current run of lost turns is a positive multiple of three. Then an owned fan gets one write of
      Auto, an unowned one none, and the fan is given up exactly when that write verifies or is the
      third strike. */
  lemma LostSensorsReturnFan(c: Setup, s: Sup, env: Env, n: nat)
    requires c.Ok() && s.track == Start(c.curve)
    ensures var h := History(c, s, env, n + 1);
            var (t, d) := Decide(c, Prepare(Run(c, s, env, n), env), env);
            var u, a, k := Act(c, t, d, env).0, env(|t.log|), |t.log|;
            && (d == ReturnToAuto <==>
                  !h[n].kind.InObserve? && LostTail(h) > 0 && LostTail(h) % SENSOR_LOSS_POLLS == 0)
            && (d == ReturnToAuto && !t.manualArmed ==> u == t)
            && (d == ReturnToAuto && t.manualArmed ==>
                  && u.log == t.log + [Event(SetMode(Auto, AtAct), a)]
                            + (if !a.verified && t.writeFailures + 1 >= WRITE_FAIL_FALLBACK
                               then [Event(SetMode(Auto, OnThirdStrike), env(k + 1))] else [])
                  && (!u.manualArmed || u.monitorOnly <==> a.verified || t.writeFailures + 1 >= WRITE_FAIL_FALLBACK))
  {
    hide Prepare;
    hide Run;
    hide History;
    hide Replay;
    hide LastDecision;
    DaemonFollowsPolicy(c, s, env, n);
    ExactStreaks(c.curve, History(c, s, env, n + 1));
    var r := Run(c, s, env, n);
    var (t, d) := Decide(c, Prepare(r, env), env);
    assert d == StepOnce(c, r, env).1.decision;
    DecideKeepsActive(c, Prepare(r, env), env);
    hide Decide;
    hide StepOnce;
    if d == ReturnToAuto { ReturnLog(c, t, env); }
  }

  lemma DecideKeepsActive(c: Setup, s: Sup, env: Env)
    requires c.Ok()
    ensures var (t, d) := Decide(c, s, env); d == ReturnToAuto ==> !t.monitorOnly
  {}

  lemma ReturnLog(c: Setup, s: Sup, env: Env)
    requires c.Ok() && !s.monitorOnly
    ensures var t, a, n := Act(c, s, ReturnToAuto, env).0, env(|s.log|), |s.log|;
            if !s.manualArmed then t == s
            else
              && t.log == s.log + [Event(SetMode(Auto, AtAct), a)]
                        + (if !a.verified && s.writeFailures + 1 >= WRITE_FAIL_FALLBACK
                           then [Event(SetMode(Auto, OnThirdStrike), env(n + 1))] else [])
              && (!t.manualArmed || t.monitorOnly <==> a.verified || s.writeFailures + 1 >= WRITE_FAIL_FALLBACK)
  {}

  // ---- a commanded speed is reached ----

  function Rpm(h: Hw, s: Sup, l: nat): nat { HwOf(h, s.log, l).rpm }

  /** What one read leaves of a distance when the tachometer moves by more than the stall epsilon. */
  function Closer(distance: nat): nat { Max(0, distance - STALL_TACH_EPSILON_RPM - 1) }

  lemma SameLogSameRpm(h: Hw, s: Sup, t: Sup, l: nat)
    requires t.log == s.log
    ensures Rpm(h, t, l) == Rpm(h, s, l)
  {}

  /** Only reading the fan moves the tachometer. */
  lemma AskKeepsRpm(h: Hw, s: Sup, call: Call, env: Env, l: nat)
    requires !call.ReadFan?
    ensures Rpm(h, Ask(s, call, env).0, l) == Rpm(h, s, l)
  {
    hide HwOf;
    AskHonest(h, s, call, env, l);
  }

  lemma FailKeepsRpm(h: Hw, s: Sup, env: Env, l: nat)
    ensures Rpm(h, FailWrite(s, env), l) == Rpm(h, s, l)
  {
    hide HwOf;
    AskKeepsRpm(h, s, SetMode(Auto, OnThirdStrike), env, l);
  }

  lemma ApplyModeKeepsRpm(h: Hw, s: Sup, requested: RunMode, env: Env, l: nat)
    ensures Rpm(h, ApplyMode(s, requested, env), l) == Rpm(h, s, l)
  {
    hide HwOf;
    hide FailWrite;
    AskKeepsRpm(h, s, Rearmed, env, l);
    AskKeepsRpm(h, s, SetMode(Auto, AtCommand), env, l);
    FailKeepsRpm(h, Ask(s, SetMode(Auto, AtCommand), env).0.(restorePending := true), env, l);
  }

  lemma PrepareKeepsRpm(h: Hw, s: Sup, env: Env, l: nat)
    requires l < ECHO_SETTLE_SAMPLES && Well(h, s, l) && Honest(h, Prepare(s, env).log, l)
    ensures Rpm(h, Prepare(s, env), l) == Rpm(h, s, l)
  {
    hide HwOf;
    hide Honest;
    hide ApplyMode;
    var p := Note(s, Ping, env);
    AskKeepsRpm(h, s, Ping, env, l);
    AskKeepsRpm(h, p, ReadCmd, env, l);
    AskHonest(h, s, Ping, env, l);
    AskHonest(h, p, ReadCmd, env, l);
    var (u, a) := Ask(p, ReadCmd, env);
    if Fresh(u, a.cmd) {
      var v := u.(lastCmd := Some(a.cmd.doc));
      ApplyModeStaysWell(h, v, a.cmd.doc.mode, env, l);
      ApplyModeKeepsRpm(h, v, a.cmd.doc.mode, env, l);
    }
    RetryStaysWell(h, ApplyCmdFile(p, env), env, l);
  }

  /** Acting on a speed leaves the fan in Manual with that speed in its register. */
  lemma SpeedIsWritten(c: Setup, h: Hw, s: Sup, rpm: nat, env: Env, l: nat)
    requires c.Ok() && l < ECHO_SETTLE_SAMPLES && Well(h, s, l)
    requires Honest(h, WriteControlled(c, s, rpm, env).0.log, l)
    ensures var t, target := WriteControlled(c, s, rpm, env).0, Clamp(rpm, c.hwMin, c.hwMax);
            && t.lastWritten == Some(target)
            && HwOf(h, t.log, l) == Hw(Rpm(h, s, l), target, Manual)
  {
    hide HwOf;
    hide Honest;
    hide FailWrite;
    AskHonest(h, s, SetMode(Manual, AtAct), env, l);
    FailShows(h, Ask(s, SetMode(Manual, AtAct), env).0, env, l);
    var (t, armed) := if s.manualArmed then (s, true) else EnterManual(s, AtAct, env);
    var call := WriteSpeed(Clamp(rpm, c.hwMin, c.hwMax), AtAct);
    AskHonest(h, t, call, env, l);
    FailShows(h, Ask(t, call, env).0, env, l);
  }

  lemma ReassertKeepsTarget(c: Setup, h: Hw, s: Sup, env: Env, l: nat)
    requires c.Ok() && Inv(c, s) && s.lastWritten.Some?
    ensures var t := Reassert(c, s, s.lastWritten.value, env).0;
            Rpm(h, t, l) == Rpm(h, s, l) && (t.monitorOnly || t.lastWritten == s.lastWritten)
  {
    hide Rpm;
    var call := WriteSpeed(Clamp(s.lastWritten.value, c.hwMin, c.hwMax), AtL1);
    AskKeepsRpm(h, s, call, env, l);
    FailKeepsRpm(h, Ask(s, call, env).0, env, l);
  }

  lemma StallKeepsTarget(s: Sup, prev: Option<nat>, rpm: nat, written: nat, env: Env)
    ensures var t := StallCheck(s, prev, rpm, written, env).0;
            t.monitorOnly || (t.lastWritten == s.lastWritten && t.log == s.log)
  {}

  /** Short of a fallback, verifying a driven fan leaves the target and the tachometer alone. */
  lemma TrackKeepsTarget(c: Setup, h: Hw, s: Sup, prev: Option<nat>, rpm: nat, applied: Option<nat>, env: Env, l: nat)
    requires c.Ok() && Inv(c, s) && s.lastWritten.Some?
    requires !L1Track(c, s, prev, rpm, applied, false, env).0.monitorOnly
    ensures var t := L1Track(c, s, prev, rpm, applied, false, env).0;
            t.lastWritten == s.lastWritten && Rpm(h, t, l) == Rpm(h, s, l)
  {
    hide Rpm;
    hide Reassert;
    hide StallCheck;
    hide OffTarget;
    var written := s.lastWritten.value;
    ReassertKeepsTarget(c, h, s, env, l);
    var t := if !s.monitorOnly && OffTarget(written, rpm) && applied.None? then Reassert(c, s, written, env).0 else s;
    StallFrame(t, prev, rpm, written, env);
    StallKeepsTarget(t, prev, rpm, written, env);
    var u := StallCheck(t, prev, rpm, written, env).0;
    AskKeepsRpm(h, u.(writeFailures := 0), Healthy, env, l);
    if u.log == t.log { SameLogSameRpm(h, t, u, l); }
    SameLogSameRpm(h, u, u.(writeFailures := 0), l);
  }

  lemma SlewCloses(from: nat, reg: nat, rate: nat)
    requires rate > STALL_TACH_EPSILON_RPM
    ensures AbsDiff(TachSlew(from, reg, rate), reg) <= Closer(AbsDiff(from, reg))
  {}

  lemma L1Approaches(c: Setup, h: Hw, s: Sup, applied: Option<nat>, env: Env, l: nat)
    requires c.Ok() && Inv(c, s) && l < ECHO_SETTLE_SAMPLES && Well(h, s, l) && s.lastWritten.Some?
    requires Honest(h, L1Poll(c, s, applied, env).0.log, l)
    ensures var t, target := L1Poll(c, s, applied, env).0, s.lastWritten.value;
            && t.lastWritten == Some(target)
            && AbsDiff(Rpm(h, t, l), target) <= Closer(AbsDiff(Rpm(h, s, l), target))
  {
    hide HwOf;
    hide Honest;
    hide L1Track;
    hide FailWrite;
    L1StaysWell(c, h, s, applied, env, l);
    AskHonest(h, s, ReadFan(AtL1), env, l);
    var (t, fan) := Ask(s, ReadFan(AtL1), env);
    var hw := HwOf(h, s.log, l);
    TrackKeepsTarget(c, h, t.(prevActual := Some(fan.rpm)), s.prevActual, fan.rpm, applied, env, l);
    SlewCloses(hw.rpm, hw.reg, fan.physics.rate);
  }

  /** One turn on honest hardware, whatever was commanded and sensed: if it decides on a speed, that
      speed is written and the fan ends the turn closer to it by more than the stall epsilon, or
      on it. */
  lemma TurnApproaches(c: Setup, h: Hw, s: Sup, env: Env, l: nat)
    requires c.Ok() && Inv(c, s) && l < ECHO_SETTLE_SAMPLES && Well(h, s, l)
    requires Honest(h, Turn(c, s, env).log, l)
    requires Target(c, StepOnce(c, s, env).1.decision).Some?
    ensures var t, target := Turn(c, s, env), Target(c, StepOnce(c, s, env).1.decision);
            && t.lastWritten == target
            && AbsDiff(Rpm(h, t, l), target.value) <= Closer(AbsDiff(Rpm(h, s, l), target.value))
  {
    hide HwOf;
    hide Honest;
    hide Prepare;
    hide Decide;
    hide WriteControlled;
    hide L1Poll;
    PrepareStaysWell(h, s, env, l);
    PrepareKeeps(c, s, env);
    var p := Prepare(s, env);
    DecideKeeps(c, p, env);
    DecideAsks(c, h, p, env, l);
    var (t, d) := Decide(c, p, env);
    ActStaysWell(c, h, t, d, env, l);
    ActKeeps(c, t, d, env);
    var (u, applied) := Act(c, t, d, env);
    L1StaysWell(c, h, u, applied, env, l);
    var v := L1Poll(c, u, applied, env).0;
    AskHonest(h, v, Ping, env, l);
    AskHonest(h, StepOnce(c, s, env).0, Nap(c.intervalS * 1000), env, l);
    PrepareKeepsRpm(h, s, env, l);
    SpeedIsWritten(c, h, t, if d.SetSpeed? then d.rpm else c.curve.maxRpm, env, l);
    L1Approaches(c, h, u, applied, env, l);
  }

  lemma DecideAsks(c: Setup, h: Hw, s: Sup, env: Env, l: nat)
    requires c.Ok()
    ensures var t := Decide(c, s, env).0;
            && (Honest(h, t.log, l) <==> Honest(h, s.log, l))
            && HwOf(h, t.log, l) == HwOf(h, s.log, l)
            && (Well(h, s, l) ==> Well(h, t, l))
  {
    hide HwOf;
    hide Honest;
    AskHonest(h, s, ReadSensors, env, l);
  }

  /** The tracking theorem. While the daemon keeps deciding on one speed, for whatever reason, the
      fan closes in on it by more than the stall epsilon every turn and stays once there. */
  lemma {:induction false} SpeedIsReached(c: Setup, h: Hw, s: Sup, env: Env, l: nat, target: nat, n: nat)
    requires c.Ok() && Inv(c, s) && l < ECHO_SETTLE_SAMPLES && Well(h, s, l)
    requires Honest(h, Run(c, s, env, n).log, l)
    requires forall i: nat :: i < n ==> Target(c, StepOnce(c, Run(c, s, env, i), env).1.decision) == Some(target)
    ensures AbsDiff(Rpm(h, Run(c, s, env, n), l), target)
            <= Max(0, AbsDiff(Rpm(h, s, l), target) - (STALL_TACH_EPSILON_RPM + 1) * n)
  {
    hide Turn;
    hide StepOnce;
    hide Honest;
    hide Rpm;
    hide Well;
    if n > 0 {
      var r := Run(c, s, env, n - 1);
      RunStaysWell(c, h, s, env, l, n - 1);
      RunKeeps(c, s, env, n - 1);
      TurnStaysWell(c, h, r, env, l);
      SpeedIsReached(c, h, s, env, l, target, n - 1);
      TurnApproaches(c, h, r, env, l);
    }
  }

  // ---- such runs exist, for ever ----

  /** The speed that both a hold at the configured maximum and an escalation put into the register. */
  function Top(c: Setup): nat
    requires c.Ok()
  {
    Clamp(c.curve.maxRpm, c.hwMin, c.hwMax)
  }

  /** Honest hardware idling at that speed, sensors that read and a missing command file; call 5
      takes the fan. */
  function CalmEnv(c: Setup): Env
    requires c.Ok()
  {
    k => Answer(true, true, 0, 0, Top(c), if k <= 5 then Auto else Manual, [Some(0)], Absent, Physics(false, false, 100))
  }

  ghost predicate Calm(c: Setup, s: Sup, mode: FanMode, l: nat)
    requires c.Ok()
  {
    var h := Hw(Top(c), Top(c), Auto);
    Honest(h, s.log, l) && HwOf(h, s.log, l) == h.(mode := mode)
  }

  /** In control at the top speed. */
  predicate OnTop(c: Setup, s: Sup)
    requires c.Ok()
  {
    && s.mode == HoldMode(Top(c)) && !s.Passive() && s.manualArmed && !s.restorePending
    && s.lastWritten == Some(Top(c)) && s.lastCmd.None?
  }

  lemma CalmAsk(c: Setup, s: Sup, mode: FanMode, call: Call, l: nat)
    requires c.Ok() && Calm(c, s, mode, l) && l < ECHO_SETTLE_SAMPLES
    requires call.ReadFan? ==> CalmEnv(c)(|s.log|).mode == mode
    requires call.WriteSpeed? ==> call.rpm == Top(c)
    ensures var t := Ask(s, call, CalmEnv(c)).0;
            Calm(c, t, match call case SetMode(want, _) => want case Probe => Auto case _ => mode, l)
  {
    hide HwOf;
    hide Honest;
    AskHonest(Hw(Top(c), Top(c), Auto), s, call, CalmEnv(c), l);
  }

  lemma CalmStartup(c: Setup, l: nat)
    requires c.Ok() && l < ECHO_SETTLE_SAMPLES
    ensures var blank := NewSup(c, HoldMode(c.curve.maxRpm));
            var s := Startup(blank, CalmEnv(c));
            Calm(c, s, Auto, l) && |s.log| == 2 && s == blank.(log := s.log)
  {
    var s := NewSup(c, HoldMode(c.curve.maxRpm));
    assert Calm(c, s, Auto, l) by { NothingYet(Hw(Top(c), Top(c), Auto), l); }
    hide Calm;
    CalmAsk(c, s, Auto, ReadFan(AtStartup), l);
    CalmAsk(c, Note(s, ReadFan(AtStartup), CalmEnv(c)), Auto, Probe, l);
  }

  /** Whatever the guard makes of the reading, the decision is the top speed. */
  lemma CalmDecides(c: Setup, s: Sup, mode: FanMode, l: nat)
    requires c.Ok() && l < ECHO_SETTLE_SAMPLES && Calm(c, s, mode, l) && s.mode == HoldMode(Top(c)) && !s.Passive()
    ensures var (t, d) := Decide(c, s, CalmEnv(c));
            && Target(c, d) == Some(Top(c)) && Calm(c, t, mode, l)
            && |t.log| == |s.log| + 1 && t == s.(track := t.track, log := t.log)
  {
    hide Calm;
    CalmAsk(c, s, mode, ReadSensors, l);
    var r: Readings := [Some(0)];
    assert ScreenAll(r) == r && r[..0] == [];
    assert Hottest(r) == Some(0);
    SameLogStaysCalm(c, Note(s, ReadSensors, CalmEnv(c)), Decide(c, s, CalmEnv(c)).0, mode, l);
  }

  lemma SameLogStaysCalm(c: Setup, s: Sup, t: Sup, mode: FanMode, l: nat)
    requires c.Ok() && Calm(c, s, mode, l) && t.log == s.log
    ensures Calm(c, t, mode, l)
  {}

  /** The first turn takes the fan and writes the speed; every later one only looks. */
  lemma CalmTurn(c: Setup, s: Sup, mode: FanMode, l: nat)
    requires c.Ok() && l < ECHO_SETTLE_SAMPLES && Calm(c, s, mode, l)
    requires s.mode == HoldMode(Top(c)) && !s.Passive() && !s.restorePending && s.lastCmd.None?
    requires if mode == Auto then |s.log| == 2 && !s.manualArmed && s.lastWritten.None? else |s.log| > 5 && OnTop(c, s)
    ensures var t := Turn(c, s, CalmEnv(c));
            Calm(c, t, Manual, l) && |t.log| > 5 && OnTop(c, t)
  {
    hide Calm;
    var env := CalmEnv(c);
    CalmAsk(c, s, mode, Ping, l);
    CalmAsk(c, Note(s, Ping, env), mode, ReadCmd, l);
    var p := Prepare(s, env);
    assert p == Note(Note(s, Ping, env), ReadCmd, env);
    hide Prepare;
    CalmDecides(c, p, mode, l);
    hide Decide;
    var (t, d) := Decide(c, p, env);
    CalmAct(c, t, d, mode, l);
    hide Act;
    var (u, applied) := Act(c, t, d, env);
    CalmL1(c, u, applied, l);
    hide L1Poll;
    var v := L1Poll(c, u, applied, env).0;
    CalmAsk(c, v, Manual, Ping, l);
    CalmAsk(c, Note(v, Ping, env), Manual, Nap(c.intervalS * 1000), l);
  }

  lemma CalmAct(c: Setup, s: Sup, d: Decision, mode: FanMode, l: nat)
    requires c.Ok() && l < ECHO_SETTLE_SAMPLES && Calm(c, s, mode, l) && Target(c, d) == Some(Top(c)) && |s.log| >= 5
    requires s.mode == HoldMode(Top(c)) && !s.Passive() && !s.restorePending && s.lastCmd.None?
    requires if mode == Auto then !s.manualArmed && s.lastWritten.None? else |s.log| > 5 && OnTop(c, s)
    ensures var t := Act(c, s, d, CalmEnv(c)).0;
            Calm(c, t, Manual, l) && |t.log| > 5 && OnTop(c, t)
  {
    hide Calm;
    if mode == Auto {
      CalmAsk(c, s, Auto, SetMode(Manual, AtAct), l);
      var t := EnterManual(s, AtAct, CalmEnv(c)).0;
      SameLogStaysCalm(c, Note(s, SetMode(Manual, AtAct), CalmEnv(c)), t, Manual, l);
      CalmAsk(c, t, Manual, WriteSpeed(Top(c), AtAct), l);
      SameLogStaysCalm(c, Note(t, WriteSpeed(Top(c), AtAct), CalmEnv(c)), Act(c, s, d, CalmEnv(c)).0, Manual, l);
    }
  }

  lemma CalmL1(c: Setup, s: Sup, applied: Option<nat>, l: nat)
    requires c.Ok() && l < ECHO_SETTLE_SAMPLES && Calm(c, s, Manual, l) && |s.log| > 5 && OnTop(c, s)
    ensures var t := L1Poll(c, s, applied, CalmEnv(c)).0;
            Calm(c, t, Manual, l) && |t.log| > 5 && OnTop(c, t)
  {
    hide Calm;
    var t := Note(s, ReadFan(AtL1), CalmEnv(c));
    CalmAsk(c, s, Manual, ReadFan(AtL1), l);
    var u := t.(prevActual := Some(Top(c)), stallPolls := 0, offTargetPolls := 0, writeFailures := 0);
    SameLogStaysCalm(c, t, u, Manual, l);
    CalmAsk(c, u, Manual, Healthy, l);
  }

  lemma {:induction false} CalmRun(c: Setup, l: nat, n: nat)
    requires c.Ok() && l < ECHO_SETTLE_SAMPLES && n > 0
    ensures var s := Daemon(c, HoldMode(c.curve.maxRpm), CalmEnv(c), n);
            Calm(c, s, Manual, l) && |s.log| > 5 && OnTop(c, s)
  {
    hide Turn;
    hide Startup;
    hide Calm;
    if n == 1 {
      CalmStartup(c, l);
      CalmTurn(c, Daemon(c, HoldMode(c.curve.maxRpm), CalmEnv(c), 0), Auto, l);
    } else {
      CalmRun(c, l, n - 1);
      CalmTurn(c, Daemon(c, HoldMode(c.curve.maxRpm), CalmEnv(c), n - 1), Manual, l);
    }
  }

  /** The theorems about honest hardware are about something: on such hardware the daemon takes the
      fan in its first turn and holds it for ever. */
  lemma HonestRunHolds(c: Setup, l: nat, n: nat)
    requires c.Ok() && l < ECHO_SETTLE_SAMPLES && n > 0
    ensures var s := Daemon(c, HoldMode(c.curve.maxRpm), CalmEnv(c), n);
            && Honest(Hw(Top(c), Top(c), Auto), s.log, l)
            && OnTop(c, s) && HwOf(Hw(Top(c), Top(c), Auto), s.log, l) == Hw(Top(c), Top(c), Manual)
  {
    CalmRun(c, l, n);
  }
}
