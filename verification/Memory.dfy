/** What the supervisor believes about the fan, read off the log of hardware calls. */
module Memory {
  import opened Basics
  import opened Policy
  import opened Smc
  import opened Machine
  import opened Ladder

  /** A speed the hardware confirmed. */
  predicate Confirms(e: Event) { e.call.WriteSpeed? && e.answer.verified }

  /** The fan is no longer driven: a verified return to Auto, any fallback, or a retry that finds Auto. */
  predicate Forgets(e: Event) {
    || (e.call.SetMode? && e.call.mode == Auto && e.answer.verified)
    || IsFallback(e)
    || (e.call == ReadFan(AtRetry) && e.answer.readable && e.answer.mode == Auto)
  }

  function Remembered(log: seq<Event>): Option<nat> {
    if log == [] then None
    else
      var e := log[|log| - 1];
      if Confirms(e) then Some(e.call.rpm) else if Forgets(e) then None else Remembered(log[..|log| - 1])
  }

  /** Owned: the last verified mode write was Manual, and no retry has found Auto since. */
  function Belief(log: seq<Event>): bool {
    if log == [] then false
    else
      var e := log[|log| - 1];
      if e.call.SetMode? && e.answer.verified then e.call.mode == Manual
      else if e.call == ReadFan(AtRetry) && e.answer.readable && e.answer.mode == Auto then false
      else Belief(log[..|log| - 1])
  }

  /** A release that failed, on command or in a fallback, and has neither verified since, nor been
      found done by the retry, nor been superseded by re-arming. */
  function Pending(log: seq<Event>): bool {
    if log == [] then false
    else
      var e := log[|log| - 1];
      if e.call.SetMode? && e.call.site in {AtCommand, AtRetry, OnThirdStrike, OnStall} && e.answer.verified then false
      else if e.call.SetMode? && e.call.site in {AtCommand, OnThirdStrike, OnStall} then true
      else if e.call == ReadFan(AtRetry) && e.answer.readable && e.answer.mode == Auto then false
      else if e.call == Rearmed then false
      else Pending(log[..|log| - 1])
  }

  /** The tachometer at the last L1 read that worked. */
  function LastRpm(log: seq<Event>): Option<nat> {
    if log == [] then None
    else
      var e := log[|log| - 1];
      if e.call == ReadFan(AtL1) && e.answer.readable then Some(e.answer.rpm) else LastRpm(log[..|log| - 1])
  }

  ghost predicate Recalls(s: Sup) {
    && s.lastWritten == Remembered(s.log) && s.manualArmed == Belief(s.log)
    && s.restorePending == Pending(s.log) && s.prevActual == LastRpm(s.log)
  }

  lemma AskRecalls(s: Sup, call: Call, env: Env)
    ensures var t := Ask(s, call, env).0;
            var e := Event(call, env(|s.log|));
            && Remembered(t.log) == (if Confirms(e) then Some(call.rpm) else if Forgets(e) then None else Remembered(s.log))
            && Belief(t.log) == (if call.SetMode? && e.answer.verified then call.mode == Manual
                                 else if call == ReadFan(AtRetry) && e.answer.readable && e.answer.mode == Auto then false
                                 else Belief(s.log))
            && Pending(t.log) == (if call.SetMode? && call.site in {AtCommand, AtRetry, OnThirdStrike, OnStall} && e.answer.verified then false
                                  else if call.SetMode? && call.site in {AtCommand, OnThirdStrike, OnStall} then true
                                  else if call == ReadFan(AtRetry) && e.answer.readable && e.answer.mode == Auto then false
                                  else if call == Rearmed then false
                                  else Pending(s.log))
            && LastRpm(t.log) == if call == ReadFan(AtL1) && e.answer.readable then Some(e.answer.rpm) else LastRpm(s.log)
  {
    assert (s.log + [Event(call, env(|s.log|))])[..|s.log|] == s.log;
  }

  /** Calls that tell nothing about the fan. */
  lemma NoteRecalls(s: Sup, t: Sup, call: Call, env: Env)
    requires Recalls(s) && call in {Ping, Healthy}
    requires t == s.(writeFailures := t.writeFailures)
    ensures Recalls(Note(t, call, env))
  {
    hide Remembered;
    hide Belief;
    hide Pending;
    hide LastRpm;
    AskRecalls(t, call, env);
  }

  lemma DegradeRecalls(s: Sup, t: Sup, site: Site, env: Env)
    requires Recalls(s) && site in {OnThirdStrike, OnStall}
    requires t == s.(writeFailures := t.writeFailures, stallPolls := t.stallPolls, offTargetPolls := t.offTargetPolls)
    ensures Recalls(DegradeToAuto(t, site, env))
  {
    hide Remembered;
    hide Belief;
    hide Pending;
    hide LastRpm;
    AskRecalls(t, SetMode(Auto, site), env);
  }

  lemma FailRecalls(s: Sup, env: Env)
    requires Recalls(s)
    ensures Recalls(FailWrite(s, env))
  {
    hide Remembered;
    hide Belief;
    hide Pending;
    hide LastRpm;
    hide DegradeToAuto;
    DegradeRecalls(s, s.(writeFailures := s.writeFailures + 1), OnThirdStrike, env);
  }

  lemma EnterManualRecalls(s: Sup, site: Site, env: Env)
    requires Recalls(s) && site in {AtAct, AtL1}
    ensures Recalls(EnterManual(s, site, env).0)
  {
    hide Remembered;
    hide Belief;
    hide Pending;
    hide LastRpm;
    hide FailWrite;
    AskRecalls(s, SetMode(Manual, site), env);
    if !env(|s.log|).verified { FailRecalls(Note(s, SetMode(Manual, site), env), env); }
  }

  lemma ApplyModeRecalls(s: Sup, requested: RunMode, env: Env)
    requires Recalls(s)
    ensures Recalls(ApplyMode(s, requested, env))
  {
    hide Remembered;
    hide Belief;
    hide Pending;
    hide LastRpm;
    hide FailWrite;
    if requested != ObserveMode {
      AskRecalls(s, Rearmed, env);
    } else if s.manualArmed {
      AskRecalls(s, SetMode(Auto, AtCommand), env);
      var u := Note(s, SetMode(Auto, AtCommand), env).(restorePending := true);
      if Recalls(u) { FailRecalls(u, env); }
    }
  }

  lemma PrepareRecalls(s: Sup, env: Env)
    requires Recalls(s)
    ensures Recalls(Prepare(s, env))
  {
    hide Remembered;
    hide Belief;
    hide Pending;
    hide LastRpm;
    hide ApplyMode;
    hide AutoRestoreRetry;
    AskRecalls(s, Ping, env);
    var p := Note(s, Ping, env);
    AskRecalls(p, ReadCmd, env);
    var (u, a) := Ask(p, ReadCmd, env);
    if Fresh(u, a.cmd) { ApplyModeRecalls(u.(lastCmd := Some(a.cmd.doc)), a.cmd.doc.mode, env); }
    RetryRecalls(ApplyCmdFile(p, env), env);
  }

  lemma RetryRecalls(s: Sup, env: Env)
    requires Recalls(s)
    ensures Recalls(AutoRestoreRetry(s, env))
  {
    hide Remembered;
    hide Belief;
    hide Pending;
    hide LastRpm;
    AskRecalls(s, ReadFan(AtRetry), env);
    AskRecalls(Note(s, ReadFan(AtRetry), env), SetMode(Auto, AtRetry), env);
  }

  lemma DecideRecalls(c: Setup, s: Sup, env: Env)
    requires c.Ok() && Recalls(s)
    ensures Recalls(Decide(c, s, env).0)
  {
    hide Remembered;
    hide Belief;
    hide Pending;
    hide LastRpm;
    AskRecalls(s, ReadSensors, env);
  }

  lemma WriteRecalls(c: Setup, s: Sup, rpm: nat, env: Env)
    requires c.Ok() && Recalls(s)
    ensures Recalls(WriteControlled(c, s, rpm, env).0)
  {
    hide Remembered;
    hide Belief;
    hide Pending;
    hide LastRpm;
    hide EnterManual;
    hide FailWrite;
    EnterManualRecalls(s, AtAct, env);
    var t := if s.manualArmed then s else EnterManual(s, AtAct, env).0;
    var call := WriteSpeed(Clamp(rpm, c.hwMin, c.hwMax), AtAct);
    AskRecalls(t, call, env);
    if !env(|t.log|).verified { FailRecalls(Note(t, call, env), env); }
  }

  lemma ActRecalls(c: Setup, s: Sup, d: Decision, env: Env)
    requires c.Ok() && Recalls(s)
    ensures Recalls(Act(c, s, d, env).0)
  {
    hide Remembered;
    hide Belief;
    hide Pending;
    hide LastRpm;
    hide WriteControlled;
    hide FailWrite;
    match d
    case SetSpeed(rpm) => WriteRecalls(c, s, rpm, env);
    case EscalateMax => WriteRecalls(c, s, c.curve.maxRpm, env);
    case ReturnToAuto =>
      AskRecalls(s, SetMode(Auto, AtAct), env);
      if !env(|s.log|).verified { FailRecalls(Note(s, SetMode(Auto, AtAct), env), env); }
    case Observe =>
  }

  lemma ReassertRecalls(c: Setup, s: Sup, written: nat, env: Env)
    requires c.Ok() && Recalls(s)
    ensures Recalls(Reassert(c, s, written, env).0)
  {
    hide Remembered;
    hide Belief;
    hide Pending;
    hide LastRpm;
    hide FailWrite;
    var call := WriteSpeed(Clamp(written, c.hwMin, c.hwMax), AtL1);
    AskRecalls(s, call, env);
    if !env(|s.log|).verified { FailRecalls(Note(s, call, env), env); }
  }

  lemma StallRecalls(s: Sup, prev: Option<nat>, rpm: nat, written: nat, env: Env)
    requires Recalls(s)
    ensures Recalls(StallCheck(s, prev, rpm, written, env).0)
  {
    hide Remembered;
    hide Belief;
    hide Pending;
    hide LastRpm;
    hide OffTarget;
    hide Moved;
    hide DegradeToAuto;
    DegradeRecalls(s, s.(stallPolls := 0, offTargetPolls := 0), OnStall, env);
  }

  lemma TrackRecalls(c: Setup, s: Sup, prev: Option<nat>, rpm: nat, applied: Option<nat>, failed: bool, env: Env)
    requires c.Ok() && Recalls(s)
    ensures Recalls(L1Track(c, s, prev, rpm, applied, failed, env).0)
  {
    hide Recalls;
    hide Reassert;
    hide StallCheck;
    hide OffTarget;
    if s.lastWritten.Some? {
      var written := s.lastWritten.value;
      ReassertRecalls(c, s, written, env);
      var t := if !s.monitorOnly && OffTarget(written, rpm) && applied.None? then Reassert(c, s, written, env).0 else s;
      StallRecalls(t, prev, rpm, written, env);
      var u := StallCheck(t, prev, rpm, written, env).0;
      NoteRecalls(u, u.(writeFailures := 0), Healthy, env);
    }
  }

  lemma L1Recalls(c: Setup, s: Sup, applied: Option<nat>, env: Env)
    requires c.Ok() && Recalls(s)
    ensures Recalls(L1Poll(c, s, applied, env).0)
  {
    hide Remembered;
    hide Belief;
    hide Pending;
    hide LastRpm;
    hide FailWrite;
    hide EnterManual;
    hide L1Track;
    AskRecalls(s, ReadFan(AtL1), env);
    var (t, fan) := Ask(s, ReadFan(AtL1), env);
    if !fan.readable {
      FailRecalls(t, env);
    } else {
      var u := t.(prevActual := Some(fan.rpm));
      EnterManualRecalls(u, AtL1, env);
      var (v, held) := if fan.mode != Manual then EnterManual(u, AtL1, env) else (u, true);
      TrackRecalls(c, v, s.prevActual, fan.rpm, applied, !held, env);
    }
  }

  lemma TurnRecalls(c: Setup, s: Sup, env: Env)
    requires c.Ok() && Recalls(s)
    ensures Recalls(Turn(c, s, env))
  {
    hide Remembered;
    hide Belief;
    hide Pending;
    hide LastRpm;
    hide Prepare;
    hide Decide;
    hide Act;
    hide L1Poll;
    PrepareRecalls(s, env);
    DecideRecalls(c, Prepare(s, env), env);
    var (t, d) := Decide(c, Prepare(s, env), env);
    ActRecalls(c, t, d, env);
    var (u, applied) := Act(c, t, d, env);
    L1Recalls(c, u, applied, env);
    AskRecalls(L1Poll(c, u, applied, env).0, Ping, env);
    AskRecalls(StepOnce(c, s, env).0, Nap(c.intervalS * 1000), env);
  }

  lemma {:induction false} RunRecalls(c: Setup, s: Sup, env: Env, n: nat)
    requires c.Ok() && Recalls(s)
    ensures Recalls(Run(c, s, env, n))
  {
    hide Turn;
    hide Recalls;
    if n > 0 {
      RunRecalls(c, s, env, n - 1);
      TurnRecalls(c, Run(c, s, env, n - 1), env);
    }
  }

  lemma StartupRecalls(c: Setup, start: RunMode, env: Env)
    requires c.Ok()
    ensures Recalls(Startup(NewSup(c, start), env))
  {
    hide Remembered;
    hide Belief;
    hide Pending;
    hide LastRpm;
    var s := NewSup(c, start);
    assert Recalls(s) by { NothingRemembered(); }
    AskRecalls(s, ReadFan(AtStartup), env);
    var t := Note(s, ReadFan(AtStartup), env);
    AskRecalls(t, Probe, env);
    var (u, probe) := Ask(t, Probe, env);
    AskRecalls(u.(l2Absent := !probe.verified, mode := if probe.verified then u.mode else ObserveMode), SetMode(Auto, AtStartup), env);
  }

  lemma NothingRemembered()
    ensures Remembered([]) == None && !Belief([]) && !Pending([]) && LastRpm([]) == None
  {}

  /** Position `i` confirmed the speed `rpm`, and nothing since has replaced or ended it. */
  ghost predicate Stands(log: seq<Event>, rpm: nat, i: nat) {
    && i < |log| && Confirms(log[i]) && log[i].call.rpm == rpm
    && forall j :: i < j < |log| ==> !Confirms(log[j]) && !Forgets(log[j])
  }

  lemma {:induction false} RememberedStands(log: seq<Event>, rpm: nat)
    ensures Remembered(log) == Some(rpm) <==> exists i: nat :: Stands(log, rpm, i)
  {
    if log != [] {
      var p, n := log[..|log| - 1], |log| - 1;
      RememberedStands(p, rpm);
      assert forall i :: 0 <= i < n ==> p[i] == log[i];
      if Confirms(log[n]) {
        if log[n].call.rpm == rpm { assert Stands(log, rpm, n); }
      } else if !Forgets(log[n]) {
        forall i: nat
          ensures Stands(log, rpm, i) <==> Stands(p, rpm, i)
        {}
        if i: nat :| Stands(p, rpm, i) { assert Stands(log, rpm, i); }
      }
    }
  }

  /** The supervisor's picture of the fan is its history, in every run: it believes it owns the fan
      exactly when its last verified mode write was Manual and no retry has found Auto since; a
      release is pending exactly when one failed and nothing has settled or superseded it; and the
      tachometer it compares with is that of the last L1 read that worked. */
  lemma PictureIsHistory(c: Setup, start: RunMode, env: Env, n: nat)
    requires c.Ok()
    ensures var s := Daemon(c, start, env, n);
            && (s.manualArmed <==> Belief(s.log))
            && (s.restorePending <==> Pending(s.log))
            && s.prevActual == LastRpm(s.log)
  {
    hide Startup;
    hide Turn;
    hide Belief;
    hide Pending;
    hide LastRpm;
    StartupRecalls(c, start, env);
    RunRecalls(c, Startup(NewSup(c, start), env), env, n);
  }

  /** Only ever a verified speed. In every run, under every fault pattern, the supervisor remembers
      a speed if and only if some write of exactly that speed was verified and since then none other
      was, the fan was not returned to Auto, found there by the retry, or given up in a fallback. */
  lemma RemembersOnlyVerified(c: Setup, start: RunMode, env: Env, n: nat, rpm: nat)
    requires c.Ok()
    ensures var s := Daemon(c, start, env, n);
            s.lastWritten == Some(rpm) <==> exists i: nat :: Stands(s.log, rpm, i)
  {
    hide Startup;
    hide Turn;
    hide Remembered;
    hide Belief;
    hide Pending;
    hide LastRpm;
    StartupRecalls(c, start, env);
    RunRecalls(c, Startup(NewSup(c, start), env), env, n);
    RememberedStands(Daemon(c, start, env, n).log, rpm);
  }
}
