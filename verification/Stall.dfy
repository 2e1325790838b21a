/** The stall detector, in both directions. */
module Stall {
  import opened Basics
  import opened Limits
  import opened Policy
  import opened Smc
  import opened Machine
  import opened Invariants
  import opened Control

  /** L1's judgement of the tachometer in one poll: none while the fan cannot be read, is not
      owned, is being released or has no written speed. */
  datatype Verdict = NoVerdict | Progress | Motionless

  /** The verdict L1 reaches from the state it starts in. */
  function L1Verdict(s: Sup, env: Env): Verdict {
    var (t, fan) := Ask(s, ReadFan(AtL1), env);
    if !fan.readable || !s.manualArmed || s.restorePending then NoVerdict
    else
      var u := t.(prevActual := Some(fan.rpm));
      var v := if fan.mode != Manual then EnterManual(u, AtL1, env).0 else u;
      if v.lastWritten.None? then NoVerdict
      else
        var w, prev := v.lastWritten.value, s.prevActual;
        if w - 150 <= fan.rpm <= w + 150 then Progress
        else if prev.None? || prev.value - 50 <= fan.rpm <= prev.value + 50 then Motionless
        else Progress
  }

  /** What a turn's L1 starts from: the state, and the speed written this turn. */
  function L1Entry(c: Setup, s: Sup, env: Env): (Sup, Option<nat>)
    requires c.Ok()
  {
    var (t, d) := Decide(c, Prepare(s, env), env);
    Act(c, t, d, env)
  }

  function VerdictOf(c: Setup, s: Sup, env: Env): Verdict
    requires c.Ok()
  {
    L1Verdict(L1Entry(c, s, env).0, env)
  }

  predicate IsStallFallback(e: Event) { e.call.SetMode? && e.call.site == OnStall }

  function StallFallbacks(log: seq<Event>): nat {
    if log == [] then 0 else StallFallbacks(log[..|log| - 1]) + if IsStallFallback(log[|log| - 1]) then 1 else 0
  }

  lemma AskStalls(s: Sup, call: Call, env: Env)
    ensures StallFallbacks(Ask(s, call, env).0.log)
         == StallFallbacks(s.log) + if call.SetMode? && call.site == OnStall then 1 else 0
  {
    assert (s.log + [Event(call, env(|s.log|))])[..|s.log|] == s.log;
  }

  /** Through the command file and the retry: the window survives unless the restore was pending
      or the poll ends up passive. */
  lemma PrepareIsApart(c: Setup, s: Sup, env: Env)
    requires c.Ok()
    ensures var t := Prepare(s, env);
            && StallFallbacks(t.log) == StallFallbacks(s.log)
            && t.stallPolls <= s.stallPolls
            && (!s.restorePending && !t.Passive() ==> t.stallPolls == s.stallPolls && !t.restorePending)
  {
    hide StallFallbacks;
    hide ApplyMode;
    hide AutoRestoreRetry;
    AskStalls(s, Ping, env);
    var p := Note(s, Ping, env);
    AskStalls(p, ReadCmd, env);
    var (u, a) := Ask(p, ReadCmd, env);
    if Fresh(u, a.cmd) { ApplyModeIsApart(u.(lastCmd := Some(a.cmd.doc)), a.cmd.doc.mode, env); }
    RetryIsApart(ApplyCmdFile(p, env), env);
  }

  lemma ApplyModeIsApart(s: Sup, requested: RunMode, env: Env)
    ensures var t := ApplyMode(s, requested, env);
            && StallFallbacks(t.log) == StallFallbacks(s.log)
            && t.stallPolls <= s.stallPolls
            && (!s.restorePending && !t.Passive() ==> t.stallPolls == s.stallPolls && !t.restorePending)
  {
    hide StallFallbacks;
    hide FailWrite;
    if requested != ObserveMode {
      AskStalls(s, Rearmed, env);
    } else if s.mode != ObserveMode && s.manualArmed {
      AskStalls(s, SetMode(Auto, AtCommand), env);
      FailFallsOrCounts(Ask(s, SetMode(Auto, AtCommand), env).0.(restorePending := true), env);
    }
  }

  lemma RetryIsApart(s: Sup, env: Env)
    ensures var t := AutoRestoreRetry(s, env);
            && StallFallbacks(t.log) == StallFallbacks(s.log)
            && t.stallPolls <= s.stallPolls
            && (!s.restorePending ==> t == s)
            && t.monitorOnly == s.monitorOnly && t.mode == s.mode
  {
    hide StallFallbacks;
    AskStalls(s, ReadFan(AtRetry), env);
    AskStalls(Ask(s, ReadFan(AtRetry), env).0, SetMode(Auto, AtRetry), env);
  }

  lemma DecideIsApart(c: Setup, s: Sup, env: Env)
    requires c.Ok()
    ensures var t := Decide(c, s, env).0;
            StallFallbacks(t.log) == StallFallbacks(s.log) && t == s.(track := t.track, log := t.log)
  {
    hide StallFallbacks;
    AskStalls(s, ReadSensors, env);
  }

  /** Acting leaves the window alone unless it ends in a fallback. */
  lemma ActIsApart(c: Setup, s: Sup, d: Decision, env: Env)
    requires c.Ok()
    ensures var t := Act(c, s, d, env).0;
            && StallFallbacks(t.log) == StallFallbacks(s.log)
            && t.stallPolls <= s.stallPolls
            && (s.monitorOnly ==> t.monitorOnly)
            && (!t.monitorOnly ==> t.stallPolls == s.stallPolls && t.restorePending == s.restorePending)
  {
    hide StallFallbacks;
    hide WriteControlled;
    hide FailWrite;
    match d
    case SetSpeed(rpm) => WriteIsApart(c, s, rpm, env);
    case EscalateMax => WriteIsApart(c, s, c.curve.maxRpm, env);
    case ReturnToAuto =>
      AskStalls(s, SetMode(Auto, AtAct), env);
      FailFallsOrCounts(Ask(s, SetMode(Auto, AtAct), env).0, env);
    case Observe =>
  }

  lemma FailFallsOrCounts(s: Sup, env: Env)
    ensures var t := FailWrite(s, env);
            && StallFallbacks(t.log) == StallFallbacks(s.log)
            && t.stallPolls <= s.stallPolls
            && (s.monitorOnly ==> t.monitorOnly)
            && (!t.monitorOnly ==> t == s.(writeFailures := t.writeFailures))
            && (t.stallPolls == s.stallPolls || (t.monitorOnly && t.stallPolls == 0))
  {
    hide StallFallbacks;
    AskStalls(s, SetMode(Auto, OnThirdStrike), env);
  }

  lemma WriteIsApart(c: Setup, s: Sup, rpm: nat, env: Env)
    requires c.Ok()
    ensures var t := WriteControlled(c, s, rpm, env).0;
            && StallFallbacks(t.log) == StallFallbacks(s.log)
            && t.stallPolls <= s.stallPolls
            && (s.monitorOnly ==> t.monitorOnly)
            && (!t.monitorOnly ==> t.stallPolls == s.stallPolls && t.restorePending == s.restorePending)
  {
    hide StallFallbacks;
    hide FailWrite;
    AskStalls(s, SetMode(Manual, AtAct), env);
    FailFallsOrCounts(Ask(s, SetMode(Manual, AtAct), env).0, env);
    var (t, armed) := if s.manualArmed then (s, true) else EnterManual(s, AtAct, env);
    var call := WriteSpeed(Clamp(rpm, c.hwMin, c.hwMax), AtAct);
    AskStalls(t, call, env);
    FailFallsOrCounts(Ask(t, call, env).0, env);
  }

  /** The detector itself, from the state it judges. */
  lemma CheckCounts(s: Sup, prev: Option<nat>, rpm: nat, written: nat, env: Env)
    ensures var (t, fired) := StallCheck(s, prev, rpm, written, env);
            var still := OffTarget(written, rpm) && !Moved(prev, rpm);
            && (fired <==> still && s.stallPolls + 1 >= STALL_POLLS)
            && StallFallbacks(t.log) == StallFallbacks(s.log) + (if fired then 1 else 0)
            && (fired ==> t.monitorOnly && t.stallPolls == 0)
            && (!fired ==> t.stallPolls == (if still then s.stallPolls + 1 else 0) &&
                           t.monitorOnly == s.monitorOnly && t.restorePending == s.restorePending)
  {
    hide StallFallbacks;
    AskStalls(s, SetMode(Auto, OnStall), env);
  }

  lemma TrackCounts(c: Setup, s: Sup, prev: Option<nat>, rpm: nat, applied: Option<nat>, failed: bool, env: Env)
    requires c.Ok() && s.lastWritten.Some?
    ensures var t := L1Track(c, s, prev, rpm, applied, failed, env).0;
            var still := OffTarget(s.lastWritten.value, rpm) && !Moved(prev, rpm);
            var fired := StallFallbacks(t.log) > StallFallbacks(s.log);
            && (fired ==> still && s.stallPolls + 1 >= STALL_POLLS && t.monitorOnly)
            && (still && !t.monitorOnly ==> t.stallPolls == s.stallPolls + 1 < STALL_POLLS && t.restorePending == s.restorePending)
            && t.stallPolls <= (if still then s.stallPolls + 1 else 0)
            && StallFallbacks(t.log) <= StallFallbacks(s.log) + 1
            && StallFallbacks(t.log) >= StallFallbacks(s.log)
  {
    hide StallFallbacks;
    hide Reassert;
    hide StallCheck;
    var written := s.lastWritten.value;
    ReassertCounts(c, s, written, env);
    var t := if !s.monitorOnly && OffTarget(written, rpm) && applied.None? then Reassert(c, s, written, env).0 else s;
    CheckCounts(t, prev, rpm, written, env);
    var u := StallCheck(t, prev, rpm, written, env).0;
    AskStalls(u.(writeFailures := 0), Healthy, env);
  }

  lemma ReassertCounts(c: Setup, s: Sup, written: nat, env: Env)
    requires c.Ok()
    ensures var t := Reassert(c, s, written, env).0;
            && StallFallbacks(t.log) == StallFallbacks(s.log)
            && (t.stallPolls == s.stallPolls || (t.monitorOnly && t.stallPolls == 0))
            && (!t.monitorOnly ==> t.stallPolls == s.stallPolls && t.restorePending == s.restorePending)
  {
    hide StallFallbacks;
    hide FailWrite;
    var call := WriteSpeed(Clamp(written, c.hwMin, c.hwMax), AtL1);
    AskStalls(s, call, env);
    FailFallsOrCounts(Ask(s, call, env).0, env);
  }

  /** One poll's L1, by its verdict. */
  lemma L1Counts(c: Setup, s: Sup, applied: Option<nat>, env: Env)
    requires c.Ok() && Inv(c, s)
    ensures var t := L1Poll(c, s, applied, env).0;
            var verdict := L1Verdict(s, env);
            && (StallFallbacks(t.log) > StallFallbacks(s.log) ==>
                  verdict == Motionless && s.stallPolls + 1 >= STALL_POLLS && t.monitorOnly)
            && (verdict == Motionless && !t.monitorOnly ==> t.stallPolls == s.stallPolls + 1 < STALL_POLLS && !t.restorePending)
            && t.stallPolls <= (match verdict case NoVerdict => s.stallPolls case Progress => 0 case Motionless => s.stallPolls + 1)
  {
    hide StallFallbacks;
    hide FailWrite;
    hide EnterManual;
    hide L1Track;
    AskStalls(s, ReadFan(AtL1), env);
    var (t, fan) := Ask(s, ReadFan(AtL1), env);
    FailFallsOrCounts(t, env);
    var u := t.(prevActual := Some(fan.rpm));
    if fan.readable && u.manualArmed && !u.restorePending {
      EnterManualCounts(u, env);
      var (v, held) := if fan.mode != Manual then EnterManual(u, AtL1, env) else (u, true);
      if v.lastWritten.Some? {
        OnTargetMeans(v.lastWritten.value, fan.rpm);
        StillMeans(s.prevActual, fan.rpm);
        TrackCounts(c, v, s.prevActual, fan.rpm, applied, !held, env);
      } else {
        NothingToTrack(c, v, s.prevActual, fan.rpm, applied, !held, env);
      }
    }
  }

  lemma NothingToTrack(c: Setup, s: Sup, prev: Option<nat>, rpm: nat, applied: Option<nat>, failed: bool, env: Env)
    requires c.Ok() && s.lastWritten.None?
    ensures L1Track(c, s, prev, rpm, applied, failed, env) == (s, !failed)
  {}

  lemma EnterManualCounts(s: Sup, env: Env)
    ensures var t := EnterManual(s, AtL1, env).0;
            && StallFallbacks(t.log) == StallFallbacks(s.log)
            && t.stallPolls <= s.stallPolls
            && (t.lastWritten.Some? ==> t.stallPolls == s.stallPolls && t.restorePending == s.restorePending)
  {
    hide StallFallbacks;
    AskStalls(s, SetMode(Manual, AtL1), env);
    AskStalls(Ask(s, SetMode(Manual, AtL1), env).0, SetMode(Auto, OnThirdStrike), env);
  }

  /** What one turn does to the stall window. */
  lemma TurnCounts(c: Setup, s: Sup, env: Env)
    requires c.Ok() && Inv(c, s)
    ensures var t, verdict := Turn(c, s, env), VerdictOf(c, s, env);
            && (StallFallbacks(t.log) > StallFallbacks(s.log) ==> verdict == Motionless && s.stallPolls + 1 >= STALL_POLLS)
            && (verdict == Motionless && !t.monitorOnly ==>
                  !t.restorePending && t.stallPolls >= 1 && (!s.restorePending ==> t.stallPolls == s.stallPolls + 1))
            && t.stallPolls <= (match verdict case NoVerdict => s.stallPolls case Progress => 0 case Motionless => s.stallPolls + 1)
  {
    hide StallFallbacks;
    hide Prepare;
    hide Decide;
    hide Act;
    hide L1Poll;
    PrepareIsApart(c, s, env);
    PrepareKeeps(c, s, env);
    var p := Prepare(s, env);
    DecideKeeps(c, p, env);
    DecideIsApart(c, p, env);
    var (t, d) := Decide(c, p, env);
    ActKeeps(c, t, d, env);
    ActIsApart(c, t, d, env);
    ActFrame(c, t, d, env);
    var (u, applied) := Act(c, t, d, env);
    L1Counts(c, u, applied, env);
    L1Frame(c, u, applied, env);
    var v := L1Poll(c, u, applied, env).0;
    AskStalls(v, Ping, env);
    AskStalls(StepOnce(c, s, env).0, Nap(c.intervalS * 1000), env);
  }

  lemma {:induction false} MotionlessAccumulates(c: Setup, s: Sup, env: Env, k: nat)
    requires c.Ok() && Inv(c, s)
    requires forall i: nat :: i < k ==> VerdictOf(c, Run(c, s, env, i), env) == Motionless
    requires forall i: nat :: 1 <= i <= k ==> !Run(c, s, env, i).monitorOnly
    ensures k > 0 ==> Run(c, s, env, k).stallPolls >= k && !Run(c, s, env, k).restorePending
  {
    hide Turn;
    hide VerdictOf;
    if k > 0 {
      MotionlessAccumulates(c, s, env, k - 1);
      RunKeeps(c, s, env, k - 1);
      TurnCounts(c, Run(c, s, env, k - 1), env);
    }
  }

  /** A dead actuator cannot hide: ten consecutive motionless, off-target verdicts latch
      monitor-only by the tenth at the latest, however the written target moves meanwhile. */
  lemma TenMotionlessVerdictsLatch(c: Setup, s: Sup, env: Env)
    requires c.Ok() && Inv(c, s)
    requires forall i: nat :: i < STALL_POLLS ==> VerdictOf(c, Run(c, s, env, i), env) == Motionless
    ensures exists k: nat :: 1 <= k <= STALL_POLLS && Run(c, s, env, k).monitorOnly
  {
    hide Turn;
    hide VerdictOf;
    if forall k: nat :: 1 <= k <= STALL_POLLS ==> !Run(c, s, env, k).monitorOnly {
      MotionlessAccumulates(c, s, env, STALL_POLLS);
      RunKeeps(c, s, env, STALL_POLLS);
      assert false;
    }
  }

  /** Motionless verdicts since the last moving or on-target one, over the first `n` turns. */
  function MotionlessSince(c: Setup, s: Sup, env: Env, n: nat): nat
    requires c.Ok()
  {
    if n == 0 then 0
    else
      match VerdictOf(c, Run(c, s, env, n - 1), env)
      case Motionless => MotionlessSince(c, s, env, n - 1) + 1
      case Progress => 0
      case NoVerdict => MotionlessSince(c, s, env, n - 1)
  }

  /** The stall fallback is never premature: it fires only in a turn whose own verdict makes at
      least ten motionless ones since the last moving or on-target one. */
  lemma {:induction false} StallNeedsTenMotionless(c: Setup, s: Sup, env: Env, n: nat)
    requires c.Ok() && Inv(c, s) && s.stallPolls == 0
    ensures Run(c, s, env, n).stallPolls <= MotionlessSince(c, s, env, n)
    ensures var t := Run(c, s, env, n);
            StallFallbacks(Turn(c, t, env).log) > StallFallbacks(t.log) ==>
              VerdictOf(c, t, env) == Motionless && MotionlessSince(c, s, env, n + 1) >= STALL_POLLS
  {
    hide Turn;
    hide VerdictOf;
    hide StallFallbacks;
    if n > 0 {
      StallNeedsTenMotionless(c, s, env, n - 1);
      RunKeeps(c, s, env, n - 1);
      TurnCounts(c, Run(c, s, env, n - 1), env);
    }
    RunKeeps(c, s, env, n);
    TurnCounts(c, Run(c, s, env, n), env);
  }

  // ---- when exactly it fires ----

  /** L1's own re-assert makes a third strike, after its mode check if that failed too. */
  predicate StrikesFirst(s: Sup, applied: Option<nat>, env: Env) {
    var n := |s.log|;
    var drifted := env(n).mode != Manual;
    && applied.None? && !env(if drifted then n + 2 else n + 1).verified
    && s.writeFailures + (if drifted && !env(n + 1).verified then 1 else 0) + 1 >= WRITE_FAIL_FALLBACK
  }

  lemma TrackFires(c: Setup, s: Sup, prev: Option<nat>, rpm: nat, applied: Option<nat>, failed: bool, env: Env)
    requires c.Ok() && s.lastWritten.Some? && !s.monitorOnly
    ensures StallFallbacks(L1Track(c, s, prev, rpm, applied, failed, env).0.log) > StallFallbacks(s.log) <==>
            && OffTarget(s.lastWritten.value, rpm) && !Moved(prev, rpm) && s.stallPolls + 1 >= STALL_POLLS
            && !(applied.None? && !env(|s.log|).verified && s.writeFailures + 1 >= WRITE_FAIL_FALLBACK)
  {
    hide StallFallbacks;
    hide Reassert;
    hide StallCheck;
    hide OffTarget;
    hide Moved;
    var written := s.lastWritten.value;
    ReassertFires(c, s, written, env);
    var t := if OffTarget(written, rpm) && applied.None? then Reassert(c, s, written, env).0 else s;
    CheckCounts(t, prev, rpm, written, env);
    AskStalls(StallCheck(t, prev, rpm, written, env).0.(writeFailures := 0), Healthy, env);
  }

  lemma ReassertFires(c: Setup, s: Sup, written: nat, env: Env)
    requires c.Ok() && !s.monitorOnly
    ensures var t := Reassert(c, s, written, env).0;
            && StallFallbacks(t.log) == StallFallbacks(s.log)
            && t.stallPolls == if !env(|s.log|).verified && s.writeFailures + 1 >= WRITE_FAIL_FALLBACK then 0 else s.stallPolls
  {
    hide StallFallbacks;
    var call := WriteSpeed(Clamp(written, c.hwMin, c.hwMax), AtL1);
    AskStalls(s, call, env);
    AskStalls(Note(s, call, env), SetMode(Auto, OnThirdStrike), env);
  }

  lemma TakeFires(s: Sup, env: Env)
    requires !s.monitorOnly && s.lastWritten.Some?
    ensures var (t, held) := EnterManual(s, AtL1, env);
            && StallFallbacks(t.log) == StallFallbacks(s.log)
            && (t.lastWritten.Some? ==>
                  && !t.monitorOnly && t.lastWritten == s.lastWritten && t.stallPolls == s.stallPolls && |t.log| == |s.log| + 1
                  && t.writeFailures == s.writeFailures + if env(|s.log|).verified then 0 else 1)
  {
    hide StallFallbacks;
    AskStalls(s, SetMode(Manual, AtL1), env);
    AskStalls(Note(s, SetMode(Manual, AtL1), env), SetMode(Auto, OnThirdStrike), env);
  }

  lemma L1Fires(c: Setup, s: Sup, applied: Option<nat>, env: Env)
    requires c.Ok() && Inv(c, s)
    ensures StallFallbacks(L1Poll(c, s, applied, env).0.log) > StallFallbacks(s.log) <==>
            L1Verdict(s, env) == Motionless && s.stallPolls + 1 == STALL_POLLS && !StrikesFirst(s, applied, env)
  {
    hide StallFallbacks;
    hide FailWrite;
    hide EnterManual;
    hide L1Track;
    hide OffTarget;
    hide Moved;
    AskStalls(s, ReadFan(AtL1), env);
    var (t, fan) := Ask(s, ReadFan(AtL1), env);
    FailFallsOrCounts(t, env);
    var u := t.(prevActual := Some(fan.rpm));
    if fan.readable && u.manualArmed && !u.restorePending {
      EnterManualCounts(u, env);
      var (v, held) := if fan.mode != Manual then EnterManual(u, AtL1, env) else (u, true);
      if s.lastWritten.Some? { TakeFires(u, env); }
      EnterManualKeeps(c, u, AtL1, env);
      if v.lastWritten.Some? {
        OnTargetMeans(v.lastWritten.value, fan.rpm);
        StillMeans(s.prevActual, fan.rpm);
        TrackFires(c, v, s.prevActual, fan.rpm, applied, !held, env);
      } else {
        NothingToTrack(c, v, s.prevActual, fan.rpm, applied, !held, env);
      }
    }
  }

  /** The stall fallback, exactly. A turn falls back for a stall if and only if L1's verdict is
      motionless, the window it starts from holds nine, and its own re-assert does not make a third
      strike first. */
  lemma StallFiresExactly(c: Setup, s: Sup, env: Env)
    requires c.Ok() && Inv(c, s)
    ensures var (u, applied) := L1Entry(c, s, env);
            StallFallbacks(Turn(c, s, env).log) > StallFallbacks(s.log) <==>
              VerdictOf(c, s, env) == Motionless && u.stallPolls + 1 == STALL_POLLS && !StrikesFirst(u, applied, env)
  {
    hide StallFallbacks;
    hide Prepare;
    hide Decide;
    hide Act;
    hide L1Poll;
    hide L1Verdict;
    hide StrikesFirst;
    PrepareIsApart(c, s, env);
    PrepareKeeps(c, s, env);
    var p := Prepare(s, env);
    DecideKeeps(c, p, env);
    DecideIsApart(c, p, env);
    var (t, d) := Decide(c, p, env);
    ActKeeps(c, t, d, env);
    ActIsApart(c, t, d, env);
    var (u, applied) := Act(c, t, d, env);
    L1Fires(c, u, applied, env);
    var v := L1Poll(c, u, applied, env).0;
    AskStalls(v, Ping, env);
    AskStalls(StepOnce(c, s, env).0, Nap(c.intervalS * 1000), env);
  }
}
