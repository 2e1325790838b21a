/** A supervisor that refuses the fan: what it does to one it neither owns nor is releasing. */
module Refused {
  import opened Basics
  import opened Limits
  import opened Policy
  import opened Smc
  import opened Machine
  import opened Invariants
  import opened Growth
  import opened Control
  import opened Ownership
  import opened Verdicts

  predicate IsBlind(e: Event) { e.call == ReadFan(AtL1) && !e.answer.readable }

  /** How often L1 could not read the fan. */
  function BlindReads(log: seq<Event>): nat {
    if log == [] then 0 else BlindReads(log[..|log| - 1]) + if IsBlind(log[|log| - 1]) then 1 else 0
  }

  lemma AskBlind(s: Sup, call: Call, env: Env)
    ensures var t := Ask(s, call, env).0;
            && Writes(t.log) == Writes(s.log) + (if IsWrite(call) then 1 else 0)
            && BlindReads(t.log) == BlindReads(s.log) + if IsBlind(Event(call, env(|s.log|))) then 1 else 0
  {
    assert (s.log + [Event(call, env(|s.log|))])[..|s.log|] == s.log;
  }

  lemma {:induction false} CountsAscend(log: seq<Event>, k: nat)
    requires k <= |log|
    ensures Writes(log[..k]) <= Writes(log) && BlindReads(log[..k]) <= BlindReads(log)
  {
    if k == |log| {
      assert log[..k] == log;
    } else {
      CountsAscend(log[..|log| - 1], k);
      assert log[..|log| - 1][..k] == log[..k];
    }
  }

  /** Given up, with nothing owned and nothing pending. */
  predicate Idle(s: Sup) { s.Passive() && !s.manualArmed && !s.restorePending }

  /** Nothing can bring control back: there is no restore path, or no fresh command ever comes. */
  ghost predicate Barred(s: Sup, env: Env) {
    (s.l2Absent && s.mode == ObserveMode) || forall k: nat :: !Fresh(s, env(k).cmd)
  }

  lemma CommandIsRefused(s: Sup, env: Env)
    requires Idle(s) && Barred(s, env)
    ensures var t := ApplyCmdFile(s, env);
            && t == s.(lastCmd := t.lastCmd, log := t.log) && Barred(t, env)
            && Writes(t.log) == Writes(s.log) && BlindReads(t.log) == BlindReads(s.log)
  {
    hide Writes;
    hide BlindReads;
    AskBlind(s, ReadCmd, env);
    assert Fresh(s, env(|s.log|).cmd) ==> s.l2Absent && s.mode == ObserveMode;
    assert ApplyCmdFile(s, env).lastCmd == s.lastCmd ==> forall k: nat :: Fresh(ApplyCmdFile(s, env), env(k).cmd) == Fresh(s, env(k).cmd);
  }

  lemma IdleStart(s: Sup, env: Env)
    requires Idle(s) && Barred(s, env)
    ensures var t := Prepare(s, env);
            && t == s.(lastCmd := t.lastCmd, log := t.log) && Barred(t, env)
            && Writes(t.log) == Writes(s.log) && BlindReads(t.log) == BlindReads(s.log)
  {
    hide Writes;
    hide BlindReads;
    hide ApplyCmdFile;
    hide Barred;
    AskBlind(s, Ping, env);
    SameCommandStaysBarred(s, Note(s, Ping, env), env);
    CommandIsRefused(Note(s, Ping, env), env);
  }

  lemma SameCommandStaysBarred(s: Sup, t: Sup, env: Env)
    requires Barred(s, env) && t.lastCmd == s.lastCmd && t.mode == s.mode && t.l2Absent == s.l2Absent
    ensures Barred(t, env)
  {
    assert forall k: nat :: Fresh(t, env(k).cmd) == Fresh(s, env(k).cmd);
  }

  lemma IdleL1(c: Setup, s: Sup, env: Env)
    requires c.Ok() && Idle(s)
    ensures var t := L1Poll(c, s, None, env).0;
            var blind := !env(|s.log|).readable;
            && BlindReads(t.log) == BlindReads(s.log) + (if blind then 1 else 0)
            && (!blind ==> Writes(t.log) == Writes(s.log) && Idle(t) && t.writeFailures == s.writeFailures)
            && (blind && s.writeFailures + 1 < WRITE_FAIL_FALLBACK ==>
                  Writes(t.log) == Writes(s.log) && Idle(t) && t.writeFailures == s.writeFailures + 1)
            && (blind && s.writeFailures + 1 >= WRITE_FAIL_FALLBACK ==>
                  && Writes(t.log) == Writes(s.log) + 1
                  && t.log == s.log + [Event(ReadFan(AtL1), env(|s.log|)), Event(SetMode(Auto, OnThirdStrike), env(|s.log| + 1))])
  {
    hide Writes;
    hide BlindReads;
    AskBlind(s, ReadFan(AtL1), env);
    AskBlind(Note(s, ReadFan(AtL1), env), SetMode(Auto, OnThirdStrike), env);
  }

  lemma IdleDecide(c: Setup, s: Sup, env: Env)
    requires c.Ok() && Idle(s)
    ensures var (t, d) := Decide(c, s, env);
            && d == Decision.Observe && t == s.(track := t.track, log := t.log)
            && Writes(t.log) == Writes(s.log) && BlindReads(t.log) == BlindReads(s.log)
  {
    hide Writes;
    hide BlindReads;
    AskBlind(s, ReadSensors, env);
  }

  /** One turn: no write, until the failed reads make a third strike; then one, the fallback. */
  lemma IdleTurn(c: Setup, s: Sup, env: Env)
    requires c.Ok() && Idle(s) && Barred(s, env)
    ensures var t := Turn(c, s, env);
            && BlindReads(s.log) <= BlindReads(t.log) <= BlindReads(s.log) + 1
            && (t.mode == s.mode && t.l2Absent == s.l2Absent)
            && (s.writeFailures + BlindReads(t.log) - BlindReads(s.log) < WRITE_FAIL_FALLBACK
                || BlindReads(t.log) == BlindReads(s.log) ==>
                  && Writes(t.log) == Writes(s.log) && Idle(t) && Barred(t, env)
                  && t.writeFailures == s.writeFailures + BlindReads(t.log) - BlindReads(s.log))
            && (s.writeFailures + 1 >= WRITE_FAIL_FALLBACK && BlindReads(t.log) > BlindReads(s.log) ==>
                  && Writes(t.log) == Writes(s.log) + 1
                  && |t.log| >= 3 && t.log[|t.log| - 3].call == SetMode(Auto, OnThirdStrike))
  {
    hide Writes;
    hide BlindReads;
    hide Prepare;
    hide Barred;
    hide L1Poll;
    hide Decide;
    IdleStart(s, env);
    var p := Prepare(s, env);
    IdleDecide(c, p, env);
    var t := Decide(c, p, env).0;
    SameCommandStaysBarred(p, t, env);
    IdleL1(c, t, env);
    L1Frame(c, t, None, env);
    L1KeepsAbsent(c, t, env);
    var v := L1Poll(c, t, None, env).0;
    AskBlind(v, Ping, env);
    AskBlind(Note(v, Ping, env), Nap(c.intervalS * 1000), env);
    SameCommandStaysBarred(t, Turn(c, s, env), env);
  }

  lemma L1KeepsAbsent(c: Setup, s: Sup, env: Env)
    requires c.Ok() && Idle(s)
    ensures L1Poll(c, s, None, env).0.l2Absent == s.l2Absent
  {}

  lemma {:induction false} IdleRun(c: Setup, s: Sup, env: Env, n: nat)
    requires c.Ok() && Idle(s) && Barred(s, env) && s.writeFailures < WRITE_FAIL_FALLBACK
    ensures var t := Run(c, s, env, n);
            var strikes := s.writeFailures + BlindReads(t.log) - BlindReads(s.log);
            && (strikes < WRITE_FAIL_FALLBACK ==>
                  Writes(t.log) == Writes(s.log) && Idle(t) && Barred(t, env) && t.writeFailures == strikes && t.mode == s.mode)
            && (strikes >= WRITE_FAIL_FALLBACK ==> Writes(t.log) > Writes(s.log))
  {
    hide Turn;
    hide Writes;
    hide BlindReads;
    hide Barred;
    if n > 0 {
      IdleRun(c, s, env, n - 1);
      var r := Run(c, s, env, n - 1);
      TurnGrows(c, r, env);
      var t := Turn(c, r, env);
      assert t.log[..|r.log|] == r.log;
      CountsAscend(t.log, |r.log|);
      if s.writeFailures + BlindReads(r.log) - BlindReads(s.log) < WRITE_FAIL_FALLBACK { IdleTurn(c, r, env); }
    }
  }

  // ---- what becomes of the fan ----

  /** The firmware took the fan back somewhere in the log from position `k` on. */
  ghost predicate ReclaimedSince(log: seq<Event>, k: nat) {
    exists i :: k <= i < |log| && log[i].answer.physics.reclaimed
  }

  /** A fan nobody writes to changes hands only by a reclaim. */
  lemma {:induction false} UnwrittenFan(m: FanMode, log: seq<Event>, k: nat)
    requires k <= |log| && Writes(log) == Writes(log[..k])
    ensures Fan(m, log) == Manual <==> Fan(m, log[..k]) == Manual && !ReclaimedSince(log, k)
  {
    if k == |log| {
      assert log[..k] == log;
    } else {
      var p := log[..|log| - 1];
      assert p[..k] == log[..k];
      CountsAscend(p, k);
      UnwrittenFan(m, p, k);
      assert forall i :: k <= i < |p| ==> log[i] == p[i];
      if ReclaimedSince(p, k) {
        var i :| k <= i < |p| && p[i].answer.physics.reclaimed;
        assert log[i].answer.physics.reclaimed;
      }
    }
  }

  /** A supervisor that has given up a fan it neither owns nor is releasing, with nothing to bring
      control back, writes to the hardware if and only if its failed L1 reads add up to a third
      strike; that write is the fallback's restore. Until then the fan stays in Manual exactly if
      it is there now and the firmware never takes it back. */
  lemma LeftAloneExactly(c: Setup, m: FanMode, s: Sup, env: Env, n: nat)
    requires c.Ok() && Inv(c, s) && Idle(s) && Barred(s, env)
    ensures var t := Run(c, s, env, n);
            var strikes := s.writeFailures + BlindReads(t.log) - BlindReads(s.log);
            && (Writes(t.log) == Writes(s.log) <==> strikes < WRITE_FAIL_FALLBACK)
            && (strikes < WRITE_FAIL_FALLBACK ==>
                  && Idle(t) && t.mode == s.mode
                  && (Fan(m, t.log) == Manual <==> Fan(m, s.log) == Manual && !ReclaimedSince(t.log, |s.log|)))
            && (strikes < WRITE_FAIL_FALLBACK && Writes(Turn(c, t, env).log) > Writes(t.log) ==>
                  && Writes(Turn(c, t, env).log) == Writes(t.log) + 1
                  && |Turn(c, t, env).log| >= 3
                  && Turn(c, t, env).log[|Turn(c, t, env).log| - 3].call == SetMode(Auto, OnThirdStrike))
  {
    hide Turn;
    hide Writes;
    hide BlindReads;
    hide Barred;
    hide Fan;
    IdleRun(c, s, env, n);
    RunGrows(c, s, env, n);
    var t := Run(c, s, env, n);
    assert t.log[..|s.log|] == s.log;
    if s.writeFailures + BlindReads(t.log) - BlindReads(s.log) < WRITE_FAIL_FALLBACK {
      UnwrittenFan(m, t.log, |s.log|);
      IdleTurn(c, t, env);
    }
  }

  lemma StartupIsIdle(c: Setup, start: RunMode, env: Env)
    requires c.Ok() && !env(1).verified
    ensures var s := Startup(NewSup(c, start), env);
            Idle(s) && Barred(s, env) && s.mode == ObserveMode && s.writeFailures == 0 && BlindReads(s.log) == 0
  {
    hide Writes;
    hide BlindReads;
    StartupVerdict(c, start, env);
    NothingBlind();
    var s := NewSup(c, start);
    AskBlind(s, ReadFan(AtStartup), env);
    var t := Note(s, ReadFan(AtStartup), env);
    AskBlind(t, Probe, env);
    var u := Note(t, Probe, env).(l2Absent := true, mode := ObserveMode);
    AskBlind(u, SetMode(Auto, AtStartup), env);
  }

  lemma NothingBlind()
    ensures BlindReads([]) == 0
  {}

  /** Refused for ever. When startup's probe fails, no later turn of any run writes to the hardware,
      whatever the command file says, if and only if L1 has failed to read the fan fewer than three
      times; so a fan that startup leaves in Manual stays there, observed, unowned and with nothing
      pending, until the firmware or the third failed read takes it back. */
  lemma RefusedForEver(c: Setup, start: RunMode, m: FanMode, env: Env, n: nat)
    requires c.Ok() && !env(1).verified
    ensures var first, s := Startup(NewSup(c, start), env), Daemon(c, start, env, n);
            && (Writes(s.log) == Writes(first.log) <==> BlindReads(s.log) < WRITE_FAIL_FALLBACK)
            && (BlindReads(s.log) < WRITE_FAIL_FALLBACK ==>
                  && s.mode == ObserveMode && Idle(s)
                  && (Fan(m, s.log) == Manual <==> Fan(m, first.log) == Manual && !ReclaimedSince(s.log, |first.log|)))
  {
    hide Startup;
    hide Turn;
    hide Run;
    hide Writes;
    hide BlindReads;
    hide Barred;
    hide Fan;
    StartupIsIdle(c, start, env);
    StartupEstablishes(c, start, env);
    LeftAloneExactly(c, m, Startup(NewSup(c, start), env), env, n);
  }
}
