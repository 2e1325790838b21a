/** A turn in which everything works: the supervisor takes the fan, writes a speed and finds it held. */
module FirstTurn {
  import opened Basics
  import opened Policy
  import opened Smc
  import opened Machine

  /** In control, owning the fan, with nothing counted against it. */
  predicate Fine(s: Sup) {
    !s.Passive() && !s.restorePending && s.writeFailures == 0 && s.stallPolls == 0 && s.offTargetPolls == 0
  }

  lemma TakeWorks(c: Setup, s: Sup, d: Decision, env: Env)
    requires c.Ok() && !s.monitorOnly && !s.manualArmed && s.lastWritten.None? && Target(c, d).Some?
    requires env(|s.log|).verified && env(|s.log| + 1).verified
    ensures var (t, applied) := Act(c, s, d, env);
            && t == s.(manualArmed := true, lastWritten := Target(c, d), log := t.log)
            && applied == Target(c, d) && |t.log| == |s.log| + 2
  {
    hide FailWrite;
  }

  lemma CheckWorks(c: Setup, s: Sup, applied: Option<nat>, env: Env)
    requires c.Ok() && Fine(s) && s.manualArmed && s.lastWritten.Some?
    requires var fan := env(|s.log|); fan.readable && fan.mode == Manual && !OffTarget(s.lastWritten.value, fan.rpm)
    ensures var (t, ok) := L1Poll(c, s, applied, env);
            ok && t == s.(prevActual := Some(env(|s.log|).rpm), log := t.log) && |t.log| == |s.log| + 2
  {
    hide FailWrite;
    hide EnterManual;
    hide Reassert;
    hide OffTarget;
  }

  /** The whole turn, for an unowned fan whose first decision is a speed. */
  lemma FirstTurnWorks(c: Setup, s: Sup, env: Env)
    requires c.Ok() && Fine(s) && !s.manualArmed && s.lastWritten.None?
    requires var n := |s.log|;
             && !Fresh(s, env(n + 1).cmd) && env(n + 3).verified && env(n + 4).verified
             && env(n + 5).readable && env(n + 5).mode == Manual
    requires var target := Target(c, Decide(c, Note(Note(s, Ping, env), ReadCmd, env), env).1);
             target.Some? && !OffTarget(target.value, env(|s.log| + 5).rpm)
    ensures var p := Note(Note(s, Ping, env), ReadCmd, env);
            var (k, d) := Decide(c, p, env);
            var t := Turn(c, s, env);
            && t == s.(track := k.track, manualArmed := true, lastWritten := Target(c, d),
                       prevActual := Some(env(|s.log| + 5).rpm), log := t.log)
            && |t.log| == |s.log| + 9
            && StepOnce(c, s, env).1.verified
  {
    var p := Prepare(s, env);
    assert p == Note(Note(s, Ping, env), ReadCmd, env);
    hide Prepare;
    DecideAddsOne(c, p, env);
    hide Decide;
    var (t, d) := Decide(c, p, env);
    TakeWorks(c, t, d, env);
    hide Act;
    var (u, applied) := Act(c, t, d, env);
    CheckWorks(c, u, applied, env);
    hide L1Poll;
  }

  lemma DecideAddsOne(c: Setup, s: Sup, env: Env)
    requires c.Ok()
    ensures var t := Decide(c, s, env).0;
            t == s.(track := t.track, log := t.log) && |t.log| == |s.log| + 1
  {}
}
