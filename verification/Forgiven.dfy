/** Which strikes survive a poll. A failed control write counts one, but L1 of the same poll clears
    the counter when its own checks pass; a write path that fails for ever need not escalate. */
module Forgiven {
  import opened Basics
  import opened Limits
  import opened Policy
  import opened Smc
  import opened Machine
  import opened Invariants
  import opened Growth
  import opened Control
  import opened Stall
  import opened Ladder
  import opened Verdicts

  // ---- one L1 pass ----

  /** What L1 sees when it forgives: the fan reads, is in Manual or put back there, and either is on
      the remembered speed, or a re-assert works and the stall window does not fill. */
  predicate Forgives(s: Sup, applied: Option<nat>, env: Env) {
    var n := |s.log|;
    var fan := env(n);
    && s.manualArmed && !s.restorePending && s.lastWritten.Some?
    && fan.readable && (fan.mode == Manual || env(n + 1).verified)
    && (!(s.lastWritten.value - 150 <= fan.rpm <= s.lastWritten.value + 150) ==>
          && (applied.None? ==> env(if fan.mode == Manual then n + 1 else n + 2).verified)
          && (Moves(s.prevActual, fan.rpm) || s.stallPolls + 1 < 10))
  }

  /** The tachometer moved by more than 50 rpm since the reading before. */
  predicate Moves(prev: Option<nat>, rpm: nat) { prev.Some? && !(prev.value - 50 <= rpm <= prev.value + 50) }

  lemma ReassertForgives(c: Setup, s: Sup, env: Env)
    requires c.Ok() && Inv(c, s) && !s.monitorOnly && s.lastWritten.Some?
    ensures var (t, failed) := Reassert(c, s, s.lastWritten.value, env);
            && (failed <==> !env(|s.log|).verified)
            && (!failed ==> t == s.(log := t.log))
            && (failed ==> t.monitorOnly || t.writeFailures >= 1)
  {}

  lemma StallForgives(s: Sup, prev: Option<nat>, rpm: nat, written: nat, env: Env)
    ensures var (t, stalled) := StallCheck(s, prev, rpm, written, env);
            && (stalled <==> OffTarget(written, rpm) && !Moved(prev, rpm) && s.stallPolls + 1 >= STALL_POLLS)
            && (stalled ==> t.monitorOnly)
            && (!stalled ==> t == s.(stallPolls := t.stallPolls, offTargetPolls := t.offTargetPolls))
  {
    hide OffTarget;
    hide Moved;
  }

  lemma TrackForgives(c: Setup, s: Sup, prev: Option<nat>, rpm: nat, applied: Option<nat>, failed: bool, env: Env)
    requires c.Ok() && Inv(c, s) && !s.monitorOnly && s.lastWritten.Some? && (failed ==> s.writeFailures >= 1)
    ensures var (t, ok) := L1Track(c, s, prev, rpm, applied, failed, env);
            && (ok <==> !failed && (OffTarget(s.lastWritten.value, rpm) ==>
                  (applied.None? ==> env(|s.log|).verified) && (Moved(prev, rpm) || s.stallPolls + 1 < STALL_POLLS)))
            && (ok <==> !t.monitorOnly && t.writeFailures == 0)
            && (ok ==> t == s.(stallPolls := t.stallPolls, offTargetPolls := t.offTargetPolls, writeFailures := 0, log := t.log))
  {
    hide OffTarget;
    hide Moved;
    hide Reassert;
    hide StallCheck;
    var written := s.lastWritten.value;
    ReassertForgives(c, s, env);
    var t := if OffTarget(written, rpm) && applied.None? then Reassert(c, s, written, env).0 else s;
    StallForgives(t, prev, rpm, written, env);
  }

  /** L1 reports health, and the strikes counted so far are gone, exactly when it forgives. */
  lemma ForgivenExactly(c: Setup, s: Sup, applied: Option<nat>, env: Env)
    requires c.Ok() && Inv(c, s) && s.manualArmed && !s.restorePending && s.lastWritten.Some?
    ensures var (t, ok) := L1Poll(c, s, applied, env);
            && (ok <==> Forgives(s, applied, env))
            && (ok <==> !t.monitorOnly && t.writeFailures == 0)
            && (ok ==> t == s.(prevActual := Some(env(|s.log|).rpm), stallPolls := t.stallPolls,
                               offTargetPolls := t.offTargetPolls, writeFailures := 0, log := t.log))
  {
    hide OffTarget;
    hide Moved;
    hide L1Track;
    hide Inv;
    assert !s.monitorOnly by { ActiveWhenUnpended(c, s); }
    OnTargetMeans(s.lastWritten.value, env(|s.log|).rpm);
    StillMeans(s.prevActual, env(|s.log|).rpm);
    var (t, fan) := Ask(s, ReadFan(AtL1), env);
    var u := t.(prevActual := Some(fan.rpm));
    var (v, held) := if fan.mode != Manual then EnterManual(u, AtL1, env) else (u, true);
    if fan.readable {
      TakeForgives(c, s, u, env);
      if v.lastWritten.Some? { TrackForgives(c, v, s.prevActual, fan.rpm, applied, !held, env); }
      else { NothingToTrack(c, v, s.prevActual, fan.rpm, applied, !held, env); }
    }
  }

  lemma ActiveWhenUnpended(c: Setup, s: Sup)
    requires c.Ok() && Inv(c, s) && s.manualArmed && !s.restorePending
    ensures !s.Passive()
  {}

  lemma TakeForgives(c: Setup, s: Sup, u: Sup, env: Env)
    requires c.Ok() && Inv(c, s) && s.manualArmed && !s.restorePending && s.lastWritten.Some?
    requires u == s.(prevActual := u.prevActual, log := u.log)
    ensures Inv(c, u)
    ensures var (v, held) := EnterManual(u, AtL1, env);
            && Inv(c, v)
            && (held <==> env(|u.log|).verified)
            && (held ==> v == u.(log := v.log) && |v.log| == |u.log| + 1)
            && (!held ==> v.monitorOnly || v.writeFailures >= 1)
            && (v.lastWritten.Some? ==> v.lastWritten == s.lastWritten && !v.monitorOnly)
            && (v.lastWritten.None? ==> v.monitorOnly && !held)
  {}

  // ---- one turn ----

  /** Stall fallbacks and counted failures never go away. */
  lemma {:induction false} FailuresAscend(log: seq<Event>, k: nat)
    requires k <= |log|
    ensures Failures(log[..k]) <= Failures(log) && StallFallbacks(log[..k]) <= StallFallbacks(log)
  {
    if k == |log| {
      assert log[..k] == log;
    } else {
      FailuresAscend(log[..|log| - 1], k);
      assert log[..|log| - 1][..k] == log[..k];
    }
  }

  function NewFailures(s: Sup, t: Sup): int { Failures(t.log) - Failures(s.log) }

  predicate Stalled(s: Sup, t: Sup) { StallFallbacks(t.log) > StallFallbacks(s.log) }

  /** From an active `s` to `t` every counted failure is a strike: control is given up exactly when
      they make three, or on a stall. */
  ghost predicate Tallied(s: Sup, t: Sup) {
    && NewFailures(s, t) >= 0 && StallFallbacks(t.log) >= StallFallbacks(s.log)
    && (t.monitorOnly <==> s.writeFailures + NewFailures(s, t) >= WRITE_FAIL_FALLBACK || Stalled(s, t))
    && (!t.monitorOnly ==> t.writeFailures == s.writeFailures + NewFailures(s, t) && t.restorePending == s.restorePending)
  }

  lemma AskTallies(s: Sup, call: Call, env: Env)
    ensures var t, e := Note(s, call, env), Event(call, env(|s.log|));
            && Failures(t.log) == Failures(s.log) + (if Counted(e) then 1 else 0)
            && StallFallbacks(t.log) == StallFallbacks(s.log) + (if call.SetMode? && call.site == OnStall then 1 else 0)
  {
    AskCounts(s, call, env);
    AskStalls(s, call, env);
  }

  lemma FailTallies(s: Sup, env: Env)
    ensures var t := FailWrite(s, env);
            && Failures(t.log) == Failures(s.log) && StallFallbacks(t.log) == StallFallbacks(s.log)
            && (s.monitorOnly || s.writeFailures + 1 >= WRITE_FAIL_FALLBACK ==> t.monitorOnly)
            && (s.writeFailures + 1 < WRITE_FAIL_FALLBACK ==> t == s.(writeFailures := s.writeFailures + 1))
            && (s.writeFailures + 1 >= WRITE_FAIL_FALLBACK ==> t.lastWritten.None? && t.stallPolls == 0)
  {
    hide Failures;
    hide StallFallbacks;
    AskTallies(s, SetMode(Auto, OnThirdStrike), env);
  }

  lemma EnterManualTallies(s: Sup, site: Site, env: Env)
    requires !s.monitorOnly && s.writeFailures < WRITE_FAIL_FALLBACK && site in {AtAct, AtL1}
    ensures var (t, held) := EnterManual(s, site, env);
            && Tallied(s, t) && !Stalled(s, t)
            && (held <==> NewFailures(s, t) == 0) && (held ==> t == s.(manualArmed := true, log := t.log))
            && (!t.monitorOnly ==> t.stallPolls == s.stallPolls && t.lastWritten == s.lastWritten)
            && (t.monitorOnly ==> t.lastWritten.None?)
  {
    hide Failures;
    hide StallFallbacks;
    hide FailWrite;
    AskTallies(s, SetMode(Manual, site), env);
    FailTallies(Note(s, SetMode(Manual, site), env), env);
  }

  lemma WriteTallies(c: Setup, s: Sup, rpm: nat, env: Env)
    requires c.Ok() && !s.monitorOnly && s.writeFailures < WRITE_FAIL_FALLBACK
    ensures var t := WriteControlled(c, s, rpm, env).0;
            Tallied(s, t) && !Stalled(s, t) && (t.monitorOnly ==> t.lastWritten.None?)
  {
    hide Failures;
    hide StallFallbacks;
    hide FailWrite;
    hide EnterManual;
    EnterManualTallies(s, AtAct, env);
    var (t, armed) := if s.manualArmed then (s, true) else EnterManual(s, AtAct, env);
    var call := WriteSpeed(Clamp(rpm, c.hwMin, c.hwMax), AtAct);
    AskTallies(t, call, env);
    FailTallies(Note(t, call, env), env);
  }

  lemma ActTallies(c: Setup, s: Sup, d: Decision, env: Env)
    requires c.Ok() && !s.monitorOnly && s.writeFailures < WRITE_FAIL_FALLBACK
    ensures var t := Act(c, s, d, env).0;
            Tallied(s, t) && !Stalled(s, t) && (t.monitorOnly ==> t.lastWritten.None?)
  {
    hide Failures;
    hide StallFallbacks;
    hide FailWrite;
    hide WriteControlled;
    match d
    case SetSpeed(rpm) => WriteTallies(c, s, rpm, env);
    case EscalateMax => WriteTallies(c, s, c.curve.maxRpm, env);
    case ReturnToAuto =>
      AskTallies(s, SetMode(Auto, AtAct), env);
      FailTallies(Note(s, SetMode(Auto, AtAct), env), env);
    case Observe =>
  }

  lemma ReassertTallies(c: Setup, s: Sup, written: nat, env: Env)
    requires c.Ok() && !s.monitorOnly && s.writeFailures < WRITE_FAIL_FALLBACK
    ensures var (t, failed) := Reassert(c, s, written, env);
            && Tallied(s, t) && !Stalled(s, t)
            && (failed <==> NewFailures(s, t) > 0)
            && (t.monitorOnly ==> t.stallPolls == 0)
            && (!t.monitorOnly ==> t.stallPolls == s.stallPolls)
  {
    hide Failures;
    hide StallFallbacks;
    hide FailWrite;
    var call := WriteSpeed(Clamp(written, c.hwMin, c.hwMax), AtL1);
    AskTallies(s, call, env);
    FailTallies(Note(s, call, env), env);
  }

  lemma StallTallies(s: Sup, prev: Option<nat>, rpm: nat, written: nat, env: Env)
    requires s.monitorOnly ==> s.stallPolls == 0
    ensures var (t, stalled) := StallCheck(s, prev, rpm, written, env);
            && Failures(t.log) == Failures(s.log)
            && StallFallbacks(t.log) == StallFallbacks(s.log) + (if stalled then 1 else 0)
            && (stalled ==> t.monitorOnly && !s.monitorOnly)
            && (!stalled ==> t == s.(stallPolls := t.stallPolls, offTargetPolls := t.offTargetPolls))
  {
    hide Failures;
    hide StallFallbacks;
    hide OffTarget;
    hide Moved;
    var u := s.(monitorOnly := true, lastWritten := None, writeFailures := 0, stallPolls := 0, offTargetPolls := 0);
    AskTallies(u, SetMode(Auto, OnStall), env);
  }

  lemma TrackTallies(c: Setup, s: Sup, prev: Option<nat>, rpm: nat, applied: Option<nat>, failed: bool, env: Env)
    requires c.Ok() && !s.monitorOnly && s.writeFailures < WRITE_FAIL_FALLBACK
    ensures var (t, ok) := L1Track(c, s, prev, rpm, applied, failed, env);
            && (!ok || s.lastWritten.None? ==> Tallied(s, t))
            && (!ok && !failed ==> NewFailures(s, t) > 0 || Stalled(s, t))
  {
    hide Failures;
    hide StallFallbacks;
    hide Reassert;
    hide StallCheck;
    hide OffTarget;
    if s.lastWritten.Some? {
      var written := s.lastWritten.value;
      ReassertTallies(c, s, written, env);
      var t := if OffTarget(written, rpm) && applied.None? then Reassert(c, s, written, env).0 else s;
      StallTallies(t, prev, rpm, written, env);
    }
  }

  lemma TalliedInAll(s: Sup, t: Sup, u: Sup)
    requires !s.monitorOnly && !t.monitorOnly && Tallied(s, t) && Tallied(t, u)
    ensures Tallied(s, u)
    ensures NewFailures(s, u) == NewFailures(s, t) + NewFailures(t, u) && (Stalled(t, u) ==> Stalled(s, u))
  {
    hide Failures;
    hide StallFallbacks;
  }

  /** From the mode check on. */
  lemma VerifyTallies(c: Setup, s: Sup, prev: Option<nat>, rpm: nat, applied: Option<nat>, manual: bool, env: Env)
    requires c.Ok() && !s.monitorOnly && s.writeFailures < WRITE_FAIL_FALLBACK
    ensures var (v, held) := if manual then (s, true) else EnterManual(s, AtL1, env);
            var (t, ok) := L1Track(c, v, prev, rpm, applied, !held, env);
            && (!ok || v.lastWritten.None? ==> Tallied(s, t))
            && (!ok ==> NewFailures(s, t) > 0 || Stalled(s, t))
            && (v.lastWritten.None? && s.lastWritten.Some? ==> !ok)
  {
    hide Failures;
    hide StallFallbacks;
    hide EnterManual;
    hide L1Track;
    EnterManualTallies(s, AtL1, env);
    var (v, held) := if manual then (s, true) else EnterManual(s, AtL1, env);
    var t := L1Track(c, v, prev, rpm, applied, !held, env).0;
    if v.lastWritten.None? { NothingToTrack(c, v, prev, rpm, applied, !held, env); }
    if !v.monitorOnly {
      TrackTallies(c, v, prev, rpm, applied, !held, env);
      if Tallied(v, t) { TalliedInAll(s, v, t); }
    }
  }

  /** An L1 pass that does not forgive keeps every strike and adds its own. */
  lemma L1Tallies(c: Setup, s: Sup, applied: Option<nat>, env: Env)
    requires c.Ok() && Inv(c, s) && !s.monitorOnly && !s.restorePending && !Forgives(s, applied, env)
    ensures var t := L1Poll(c, s, applied, env).0;
            Tallied(s, t) && (s.manualArmed && s.lastWritten.Some? ==> NewFailures(s, t) > 0 || Stalled(s, t))
  {
    hide Failures;
    hide StallFallbacks;
    hide FailWrite;
    hide EnterManual;
    hide L1Track;
    hide Inv;
    hide Forgives;
    AskTallies(s, ReadFan(AtL1), env);
    var (t, fan) := Ask(s, ReadFan(AtL1), env);
    assert s.writeFailures < WRITE_FAIL_FALLBACK by { CounterBelow(c, s); }
    FailTallies(t, env);
    if fan.readable && s.manualArmed {
      var u := t.(prevActual := Some(fan.rpm));
      if s.lastWritten.Some? { ForgivenExactly(c, s, applied, env); }
      VerifyTallies(c, u, s.prevActual, fan.rpm, applied, fan.mode == Manual, env);
      EnterManualTallies(u, AtL1, env);
    }
  }

  lemma CounterBelow(c: Setup, s: Sup)
    requires c.Ok() && Inv(c, s)
    ensures s.writeFailures < WRITE_FAIL_FALLBACK
  {}

  /** In control, with no release pending. */
  predicate Active(s: Sup) { !s.Passive() && !s.restorePending }

  /** No content of the command file is ever fresh. */
  ghost predicate NothingFresh(s: Sup, env: Env) { forall k: nat :: !Fresh(s, env(k).cmd) }

  predicate TurnForgives(c: Setup, s: Sup, env: Env)
    requires c.Ok()
  {
    Forgives(L1Entry(c, s, env).0, L1Entry(c, s, env).1, env)
  }

  lemma QuietStart(c: Setup, s: Sup, env: Env)
    requires c.Ok() && !s.restorePending && !Fresh(s, env(|s.log| + 1).cmd)
    ensures var p := Prepare(s, env);
            && p == s.(log := p.log) && |p.log| == |s.log| + 2
            && Failures(p.log) == Failures(s.log) && StallFallbacks(p.log) == StallFallbacks(s.log)
  {
    hide Failures;
    hide StallFallbacks;
    AskTallies(s, Ping, env);
    AskTallies(Note(s, Ping, env), ReadCmd, env);
    assert Prepare(s, env) == Note(Note(s, Ping, env), ReadCmd, env);
  }

  lemma DecideTallies(c: Setup, s: Sup, env: Env)
    requires c.Ok()
    ensures var t := Decide(c, s, env).0;
            && t == s.(track := t.track, log := t.log) && |t.log| == |s.log| + 1
            && Failures(t.log) == Failures(s.log) && StallFallbacks(t.log) == StallFallbacks(s.log)
  {
    hide Failures;
    hide StallFallbacks;
    AskTallies(s, ReadSensors, env);
  }

  /** The turn up to L1: every counted failure is a strike. */
  lemma EntryTallies(c: Setup, s: Sup, env: Env)
    requires c.Ok() && Inv(c, s) && Active(s) && !Fresh(s, env(|s.log| + 1).cmd)
    ensures var (u, applied) := L1Entry(c, s, env);
            && Inv(c, u) && Tallied(s, u) && !Stalled(s, u) && (u.monitorOnly ==> u.lastWritten.None?)
            && Latches(s.(track := u.track), u) && s.log <= u.log
  {
    hide Failures;
    hide StallFallbacks;
    hide Prepare;
    hide Decide;
    hide Act;
    QuietStart(c, s, env);
    PrepareKeeps(c, s, env);
    PrepareGrows(s, env);
    var p := Prepare(s, env);
    DecideTallies(c, p, env);
    DecideKeeps(c, p, env);
    DecideGrows(c, p, env);
    var (t, d) := Decide(c, p, env);
    ActKeeps(c, t, d, env);
    ActTallies(c, t, d, env);
    ActFrame(c, t, d, env);
    ActGrows(c, t, d, env);
  }

  /** One turn of an active supervisor without a fresh command. If L1 forgives, every strike is gone
      and control is kept. If not, the counted failures of the turn are added, and control is given
      up exactly when they make three, or on a stall. */
  lemma TurnTallies(c: Setup, s: Sup, env: Env)
    requires c.Ok() && Inv(c, s) && Active(s) && !Fresh(s, env(|s.log| + 1).cmd)
    ensures var t := Turn(c, s, env);
            && t.mode == s.mode && t.lastCmd == s.lastCmd
            && if TurnForgives(c, s, env)
               then Active(t) && t.writeFailures == 0 && !Stalled(s, t) && StepOnce(c, s, env).1.verified
               else Tallied(s, t) && (!t.monitorOnly ==> Active(t))
  {
    hide Failures;
    hide StallFallbacks;
    hide Prepare;
    hide Decide;
    hide Act;
    hide L1Poll;
    hide Forgives;
    EntryTallies(c, s, env);
    var (u, applied) := L1Entry(c, s, env);
    L1Frame(c, u, applied, env);
    L1Grows(c, u, applied, env);
    var v := L1Poll(c, u, applied, env).0;
    assert v.log[..|u.log|] == u.log;
    FailuresAscend(v.log, |u.log|);
    if Forgives(u, applied, env) {
      assert u.manualArmed && !u.restorePending && u.lastWritten.Some? by { ForgivesOwned(u, applied, env); }
      ForgivenExactly(c, u, applied, env);
      L1Counts(c, u, applied, env);
    } else if !u.monitorOnly {
      L1Tallies(c, u, applied, env);
    }
    AskTallies(v, Ping, env);
    AskTallies(Note(v, Ping, env), Nap(c.intervalS * 1000), env);
  }

  lemma ForgivesOwned(s: Sup, applied: Option<nat>, env: Env)
    requires Forgives(s, applied, env)
    ensures s.manualArmed && !s.restorePending && s.lastWritten.Some?
  {}

  // ---- runs ----

  /** Strikes at the end of `n` turns, had nobody given up: a turn that forgives wipes them, any
      other adds the failures counted in it. */
  function Tally(c: Setup, s: Sup, env: Env, n: nat): int
    requires c.Ok()
  {
    if n == 0 then s.writeFailures
    else
      var r := Run(c, s, env, n - 1);
      if TurnForgives(c, r, env) then 0 else Tally(c, s, env, n - 1) + NewFailures(r, Turn(c, r, env))
  }

  /** Turn number `i` makes a third strike since the last forgiving turn, or stalls. */
  predicate EndsIn(c: Setup, s: Sup, env: Env, i: nat)
    requires c.Ok()
  {
    i > 0 && (Tally(c, s, env, i) >= WRITE_FAIL_FALLBACK || Stalled(Run(c, s, env, i - 1), Run(c, s, env, i)))
  }

  lemma StillNothingFresh(s: Sup, t: Sup, env: Env)
    requires NothingFresh(s, env) && t.lastCmd == s.lastCmd
    ensures NothingFresh(t, env)
  {
    assert forall k: nat :: Fresh(t, env(k).cmd) == Fresh(s, env(k).cmd);
  }

  /** When control is given up. A run of an active supervisor without fresh commands is in
      monitor-only if and only if some turn made the third strike since the last forgiving turn, or
      stalled; until then the counter is the tally. */
  lemma {:induction false} GivesUpExactly(c: Setup, s: Sup, env: Env, n: nat)
    requires c.Ok() && Inv(c, s) && Active(s) && NothingFresh(s, env)
    ensures var t := Run(c, s, env, n);
            && t.lastCmd == s.lastCmd
            && (t.monitorOnly <==> exists i: nat :: i <= n && EndsIn(c, s, env, i))
            && (!t.monitorOnly ==> Active(t) && t.writeFailures == Tally(c, s, env, n))
  {
    hide Turn;
    hide NothingFresh;
    hide Stalled;
    hide NewFailures;
    hide TurnForgives;
    if n > 0 {
      GivesUpExactly(c, s, env, n - 1);
      RunKeeps(c, s, env, n - 1);
      var r := Run(c, s, env, n - 1);
      StillNothingFresh(s, r, env);
      assert !Fresh(r, env(|r.log| + 1).cmd) by { NothingFreshAt(r, env, |r.log| + 1); }
      TurnGate(c, r, env);
      if r.monitorOnly {
        var i: nat :| i <= n - 1 && EndsIn(c, s, env, i);
        assert i <= n && EndsIn(c, s, env, i);
      } else {
        EndsNow(c, s, env, n);
        if EndsIn(c, s, env, n) { assert n <= n && EndsIn(c, s, env, n); }
      }
    }
  }

  lemma NothingFreshAt(s: Sup, env: Env, k: nat)
    requires NothingFresh(s, env)
    ensures !Fresh(s, env(k).cmd)
  {}

  lemma EndsNow(c: Setup, s: Sup, env: Env, n: nat)
    requires c.Ok() && n > 0
    requires var r := Run(c, s, env, n - 1);
             && Inv(c, r) && Active(r) && !Fresh(r, env(|r.log| + 1).cmd)
             && r.writeFailures == Tally(c, s, env, n - 1)
    ensures var t := Run(c, s, env, n);
            && t.lastCmd == Run(c, s, env, n - 1).lastCmd
            && (t.monitorOnly <==> EndsIn(c, s, env, n))
            && (!t.monitorOnly ==> Active(t) && t.writeFailures == Tally(c, s, env, n))
  {
    hide Turn;
    hide TurnForgives;
    TurnTallies(c, Run(c, s, env, n - 1), env);
  }

  // ---- three failing writes ----

  /** A turn whose control write fails while L1's own calls all work. */
  predicate OnlyWriteFails(c: Setup, s: Sup, env: Env)
    requires c.Ok()
  {
    var u := L1Entry(c, s, env).0;
    NewFailures(s, u) == 1 && NewFailures(u, Turn(c, s, env)) == 0 && !Stalled(s, Turn(c, s, env))
  }

  lemma OnlyWriteFailsTurn(c: Setup, s: Sup, env: Env)
    requires c.Ok() && Inv(c, s) && Active(s) && !Fresh(s, env(|s.log| + 1).cmd) && OnlyWriteFails(c, s, env)
    ensures NewFailures(s, Turn(c, s, env)) == 1
    ensures TurnForgives(c, s, env) <==> L1Entry(c, s, env).0.lastWritten.Some?
  {
    hide Failures;
    hide StallFallbacks;
    hide Prepare;
    hide Decide;
    hide Act;
    hide L1Poll;
    hide Forgives;
    EntryTallies(c, s, env);
    var (u, applied) := L1Entry(c, s, env);
    var v := L1Poll(c, u, applied, env).0;
    AskTallies(v, Ping, env);
    AskTallies(Note(v, Ping, env), Nap(c.intervalS * 1000), env);
    if Forgives(u, applied, env) {
      ForgivesOwned(u, applied, env);
    } else if u.lastWritten.Some? {
      RemembersWhileActive(c, u);
      L1Tallies(c, u, applied, env);
    }
  }

  lemma RemembersWhileActive(c: Setup, s: Sup)
    requires c.Ok() && Inv(c, s) && s.lastWritten.Some?
    ensures s.manualArmed
  {}

  /** Three strikes, exactly. From a clean counter, three turns in a row whose control write fails
      while everything L1 does works give up control if and only if none of them forgives, which is
      when no speed is remembered in any of them. A remembered speed forgives every one. */
  lemma ThreeFailedWrites(c: Setup, s: Sup, env: Env)
    requires c.Ok() && Inv(c, s) && Active(s) && NothingFresh(s, env) && s.writeFailures == 0
    requires forall i: nat :: i < 3 && !Run(c, s, env, i).monitorOnly ==> OnlyWriteFails(c, Run(c, s, env, i), env)
    ensures Run(c, s, env, 3).monitorOnly <==> forall i: nat :: i < 3 ==> !TurnForgives(c, Run(c, s, env, i), env)
    ensures Run(c, s, env, 3).monitorOnly <==>
            forall i: nat :: i < 3 ==> L1Entry(c, Run(c, s, env, i), env).0.lastWritten.None?
  {
    hide Turn;
    hide TurnForgives;
    hide OnlyWriteFails;
    hide L1Entry;
    FailedWrite(c, s, env, 0);
    FailedWrite(c, s, env, 1);
    FailedWrite(c, s, env, 2);
  }

  lemma FailedWrite(c: Setup, s: Sup, env: Env, i: nat)
    requires c.Ok() && Inv(c, s) && Active(s) && NothingFresh(s, env)
    requires !Run(c, s, env, i).monitorOnly ==> OnlyWriteFails(c, Run(c, s, env, i), env)
    ensures var r, t := Run(c, s, env, i), Run(c, s, env, i + 1);
            && (r.monitorOnly ==> t.monitorOnly)
            && (!r.monitorOnly ==>
                  && (TurnForgives(c, r, env) <==> L1Entry(c, r, env).0.lastWritten.Some?)
                  && (t.monitorOnly <==> !TurnForgives(c, r, env) && r.writeFailures + 1 >= WRITE_FAIL_FALLBACK)
                  && (!t.monitorOnly ==> t.writeFailures == if TurnForgives(c, r, env) then 0 else r.writeFailures + 1))
  {
    hide Turn;
    hide TurnForgives;
    hide L1Entry;
    hide OnlyWriteFails;
    hide NothingFresh;
    GivesUpExactly(c, s, env, i);
    RunKeeps(c, s, env, i);
    var r := Run(c, s, env, i);
    StillNothingFresh(s, r, env);
    NothingFreshAt(r, env, |r.log| + 1);
    TurnGate(c, r, env);
    if !r.monitorOnly {
      OnlyWriteFailsTurn(c, r, env);
      assert !Stalled(r, Turn(c, r, env)) by { DoesNotStall(c, r, env); }
      TurnTallies(c, r, env);
    }
  }

  lemma DoesNotStall(c: Setup, s: Sup, env: Env)
    requires c.Ok() && OnlyWriteFails(c, s, env)
    ensures !Stalled(s, Turn(c, s, env))
  {}
}
