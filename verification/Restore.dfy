/** A pending restore is retried until it verifies, and then stays done. */
module Restore {
  import opened Basics
  import opened Policy
  import opened Smc
  import opened Machine
  import opened Invariants
  import opened Growth
  import opened Control
  import opened Ownership

  /** A poll that reaches the retry step with the flag set reads the fan and, unless it reads Auto,
      issues exactly one write of Auto, before the sensors are even read. The flag clears exactly
      when the fan read Auto or the write verified, and then nothing is owned any more. */
  lemma RetryUntilVerified(s: Sup, env: Env)
    requires s.restorePending
    ensures var t, n := AutoRestoreRetry(s, env), |s.log|;
            var readAuto := env(n).readable && env(n).mode == Auto;
            && (readAuto ==> t.log == s.log + [Event(ReadFan(AtRetry), env(n))])
            && (!readAuto ==> t.log == s.log + [Event(ReadFan(AtRetry), env(n)), Event(SetMode(Auto, AtRetry), env(n + 1))])
            && (!t.restorePending <==> readAuto || env(n + 1).verified)
            && (!t.restorePending ==> !t.manualArmed && t.lastWritten.None?)
            && (t.restorePending ==> t == s.(log := t.log))
  {
    var n := |s.log|;
    assert s.log + [Event(ReadFan(AtRetry), env(n))] + [Event(SetMode(Auto, AtRetry), env(n + 1))]
        == s.log + [Event(ReadFan(AtRetry), env(n)), Event(SetMode(Auto, AtRetry), env(n + 1))];
  }

  /** A fresh control command against a pending restore. If the supervisor had given up, the command
      supersedes the restore: the poll prepares without touching the hardware, keeps ownership and
      starts over with a clean strike counter. If it had not, as after a failed observe-release,
      the retry still goes first and control re-enters only behind it. */
  lemma RecommandAgainstPendingRestore(s: Sup, env: Env)
    requires s.restorePending && !s.l2Absent
    requires var read := env(|s.log| + 1).cmd; Fresh(s, read) && read.doc.mode != ObserveMode
    ensures var p, doc, n := Prepare(s, env), env(|s.log| + 1).cmd.doc, |s.log|;
            && (s.monitorOnly ==>
                  && p == s.(monitorOnly := false, writeFailures := 0, restorePending := false,
                             mode := doc.mode, lastCmd := Some(doc), log := p.log)
                  && p.log == s.log + [Event(Ping, env(n)), Event(ReadCmd, env(n + 1)), Event(Rearmed, env(n + 2))])
            && (!s.monitorOnly ==>
                  && p.mode == doc.mode && p.writeFailures == s.writeFailures
                  && |p.log| > n + 2 && p.log[n + 2] == Event(ReadFan(AtRetry), env(n + 2))
                  && (!p.restorePending <==> (env(n + 2).readable && env(n + 2).mode == Auto) || env(n + 3).verified)
                  && (!p.restorePending ==> !p.manualArmed))
  {
    var n := |s.log|;
    var t := Note(s, Ping, env);
    var (u, a) := Ask(t, ReadCmd, env);
    assert u.log == s.log + [Event(Ping, env(n)), Event(ReadCmd, env(n + 1))];
    var q := ApplyCmdFile(t, env);
    if s.monitorOnly {
      assert q.log == u.log + [Event(Rearmed, env(n + 2))];
    } else {
      assert q == u.(mode := a.cmd.doc.mode, lastCmd := Some(a.cmd.doc));
      RetryUntilVerified(q, env);
    }
  }

  /** From call number `n` on, mode writes verify and the command file holds nothing new. Reads and
      sensors may fail as they like. */
  ghost predicate Obeying(s: Sup, env: Env, n: nat) {
    forall k: nat :: k >= n ==> env(k).verified && !Fresh(s, env(k).cmd)
  }

  ghost predicate LetGo(s: Sup) { s.Passive() && !s.manualArmed && !s.restorePending }

  lemma PrepareLetsGo(c: Setup, s: Sup, env: Env)
    requires c.Ok() && Inv(c, s) && s.Passive() && Obeying(s, env, |s.log|)
    ensures LetGo(Prepare(s, env))
  {
    var t := Note(s, Ping, env);
    assert !Fresh(s, env(|s.log| + 1).cmd);
    assert ApplyCmdFile(t, env) == Note(t, ReadCmd, env);
  }

  lemma FailStaysLetGo(s: Sup, env: Env)
    requires LetGo(s) && env(|s.log|).verified
    ensures var t := FailWrite(s, env); LetGo(t) && t.lastCmd == s.lastCmd && |t.log| >= |s.log|
  {}

  lemma TurnLetsGo(c: Setup, s: Sup, env: Env)
    requires c.Ok() && Inv(c, s) && s.Passive() && Obeying(s, env, |s.log|)
    ensures var t := Turn(c, s, env);
            && LetGo(t) && t.lastCmd == s.lastCmd && |t.log| > |s.log|
            && Controls(t.log) == Controls(s.log)
  {
    hide FailWrite;
    hide L1Track;
    hide WriteControlled;
    hide StepObserve;
    assert !Fresh(s, env(|s.log| + 1).cmd);
    PassiveMeansPassive(c, s, env);
    PrepareLetsGo(c, s, env);
    PrepareKeeps(c, s, env);
    PrepareGrows(s, env);
    hide Prepare;
    hide Controls;
    var p := Prepare(s, env);
    DecideKeeps(c, p, env);
    hide Decide;
    var (t, d) := Decide(c, p, env);
    ObserveDoesNothing(c, t, env);
    hide Act;
    FailStaysLetGo(Note(t, ReadFan(AtL1), env), env);
  }

  /** Once the hardware obeys, a passive supervisor that sees no fresh command has released the fan
      by the end of the very next turn; it stays released, and nothing but Auto is ever written. */
  lemma {:induction false} ReleasedAndStaysReleased(c: Setup, s: Sup, env: Env, n: nat)
    requires c.Ok() && Inv(c, s) && s.Passive() && Obeying(s, env, |s.log|) && n > 0
    ensures var t := Run(c, s, env, n);
            && LetGo(t) && t.lastCmd == s.lastCmd && |t.log| > |s.log|
            && Controls(t.log) == Controls(s.log)
  {
    hide Turn;
    hide Controls;
    var p := Run(c, s, env, n - 1);
    if n > 1 {
      ReleasedAndStaysReleased(c, s, env, n - 1);
      RunKeeps(c, s, env, n - 1);
    }
    assert Obeying(p, env, |p.log|) by {
      assert forall k: nat :: Fresh(p, env(k).cmd) <==> Fresh(s, env(k).cmd);
    }
    TurnLetsGo(c, p, env);
  }

  // ---- the physical fan ----

  lemma {:induction false} TruthfulBefore(m: FanMode, log: seq<Event>, k: nat)
    requires Truthful(m, log) && k <= |log|
    ensures Truthful(m, log[..k])
  {
    if k == |log| {
      assert log[..k] == log;
    } else {
      TruthfulBefore(m, log[..|log| - 1], k);
      assert log[..|log| - 1][..k] == log[..k];
    }
  }

  lemma {:induction false} ControlsAscend(log: seq<Event>, k: nat)
    requires k <= |log|
    ensures Controls(log[..k]) <= Controls(log)
  {
    if k == |log| {
      assert log[..k] == log;
    } else {
      ControlsAscend(log[..|log| - 1], k);
      assert log[..|log| - 1][..k] == log[..k];
    }
  }

  /** A fan in Auto stays there while nobody makes a control write. */
  lemma {:induction false} AutoStays(m: FanMode, log: seq<Event>, k: nat)
    requires k <= |log| && Controls(log) == Controls(log[..k]) && Fan(m, log[..k]) == Auto
    ensures Fan(m, log) == Auto
  {
    if k == |log| {
      assert log[..k] == log;
    } else {
      var p := log[..|log| - 1];
      assert p[..k] == log[..k];
      ControlsAscend(p, k);
      AutoStays(m, p, k);
    }
  }

  /** A retry that succeeds leaves the fan in Auto. */
  lemma RetryMeansAuto(m: FanMode, s: Sup, env: Env)
    requires s.restorePending && !AutoRestoreRetry(s, env).restorePending
    requires Truthful(m, AutoRestoreRetry(s, env).log)
    ensures Fan(m, AutoRestoreRetry(s, env).log) == Auto
  {
    hide Fan;
    hide Truthful;
    hide Loose;
    AskFan(m, s, ReadFan(AtRetry), env);
    AskFan(m, Note(s, ReadFan(AtRetry), env), SetMode(Auto, AtRetry), env);
  }

  /** And then the fan really is in Auto. Under the conditions of `ReleasedAndStaysReleased`, with
      truthful reads, it is in Manual at a later turn only if it was loose to begin with and no
      release was pending, and then exactly as long as it stays loose. */
  lemma ReleasedMeansAuto(c: Setup, m: FanMode, s: Sup, env: Env, n: nat)
    requires c.Ok() && Inv(c, s) && Owned(m, s) && s.Passive() && Obeying(s, env, |s.log|) && n > 0
    ensures var t := Run(c, s, env, n);
            Truthful(m, t.log) ==>
              && (Fan(m, t.log) == Manual <==> Loose(m, t.log))
              && (Fan(m, t.log) == Manual ==> Loose(m, s.log) && !s.restorePending)
  {
    hide Turn;
    hide Fan;
    hide Truthful;
    hide Loose;
    hide Controls;
    ReleasedAndStaysReleased(c, s, env, n);
    RunOwns(c, m, s, env, n);
    RunGrows(c, s, env, n);
    var t := Run(c, s, env, n);
    assert t.log[..|s.log|] == s.log;
    if Truthful(m, t.log) {
      TruthfulBefore(m, t.log, |s.log|);
      if Loose(m, t.log) { LooseIsManual(m, t.log); }
      if Fan(m, s.log) == Auto { AutoStays(m, t.log, |s.log|); }
      if s.restorePending { PendingMeansAuto(c, m, s, env, n); }
    }
  }

  lemma PendingMeansAuto(c: Setup, m: FanMode, s: Sup, env: Env, n: nat)
    requires c.Ok() && Inv(c, s) && s.Passive() && Obeying(s, env, |s.log|) && n > 0 && s.restorePending
    requires Truthful(m, Run(c, s, env, n).log) && Controls(Run(c, s, env, n).log) == Controls(s.log)
    ensures Fan(m, Run(c, s, env, n).log) == Auto
  {
    hide Turn;
    hide Fan;
    hide Truthful;
    hide Loose;
    hide Controls;
    var p, t := Prepare(s, env), Run(c, s, env, n);
    PrepareLetsGo(c, s, env);
    TurnGrows(c, s, env);
    FirstTurn(c, s, env, n);
    assert t.log[..|p.log|] == p.log && t.log[..|s.log|] == s.log && p.log[..|s.log|] == s.log;
    TruthfulBefore(m, t.log, |p.log|);
    assert !Fresh(s, env(|s.log| + 1).cmd);
    RetryMeansAuto(m, Note(Note(s, Ping, env), ReadCmd, env), env);
    ControlsAscend(p.log, |s.log|);
    ControlsAscend(t.log, |p.log|);
    AutoStays(m, t.log, |p.log|);
  }

  lemma {:induction false} FirstTurn(c: Setup, s: Sup, env: Env, n: nat)
    requires c.Ok() && n > 0
    ensures Turn(c, s, env).log <= Run(c, s, env, n).log
  {
    hide Turn;
    if n > 1 {
      FirstTurn(c, s, env, n - 1);
      TurnGrows(c, Run(c, s, env, n - 1), env);
    } else {
      assert Run(c, s, env, 1) == Turn(c, Run(c, s, env, 0), env);
    }
  }
}
