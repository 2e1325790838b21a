/** When the supervisor may command the fan at all: only while active, only behind a proven
    restore path, and only on a fresh command after it has given up. */
module Control {
  import opened Basics
  import opened Policy
  import opened Smc
  import opened Machine
  import opened Invariants

  /** A write that takes or drives the fan. */
  predicate IsControl(call: Call) { call.WriteSpeed? || (call.SetMode? && call.mode == Manual) }

  function Controls(log: seq<Event>): nat {
    if log == [] then 0 else Controls(log[..|log| - 1]) + if IsControl(log[|log| - 1].call) then 1 else 0
  }

  predicate IsProof(e: Event) { e.call == Probe && e.answer.verified }

  predicate Proven(log: seq<Event>) { log != [] && (Proven(log[..|log| - 1]) || IsProof(log[|log| - 1])) }

  /** Every control write in the log has a successful probe before it. */
  predicate Guarded(log: seq<Event>) {
    log == [] ||
    (Guarded(log[..|log| - 1]) && (IsControl(log[|log| - 1].call) ==> Proven(log[..|log| - 1])))
  }

  lemma AskCommands(s: Sup, call: Call, env: Env)
    ensures var t := Ask(s, call, env).0;
            var e := Event(call, env(|s.log|));
            && Controls(t.log) == Controls(s.log) + (if IsControl(call) then 1 else 0)
            && (Proven(t.log) <==> Proven(s.log) || IsProof(e))
            && (Guarded(t.log) <==> Guarded(s.log) && (IsControl(call) ==> Proven(s.log)))
  {
    var e := Event(call, env(|s.log|));
    assert (s.log + [e])[..|s.log|] == s.log;
  }

  /** Steps that command nothing. */
  ghost predicate Silent(s: Sup, t: Sup) {
    Controls(t.log) == Controls(s.log) && (Proven(s.log) ==> Proven(t.log)) && (Guarded(s.log) ==> Guarded(t.log))
  }

  /** Control writes, if any, behind a proven restore path. */
  ghost predicate Covered(s: Sup, t: Sup) {
    && (Proven(s.log) ==> Proven(t.log) && (Guarded(s.log) ==> Guarded(t.log)))
    && t.l2Absent == s.l2Absent
  }

  lemma FailIsSilent(s: Sup, env: Env)
    ensures Silent(s, FailWrite(s, env)) && Covered(s, FailWrite(s, env))
  {
    hide Controls;
    hide Proven;
    hide Guarded;
    AskCommands(s, SetMode(Auto, OnThirdStrike), env);
  }

  lemma EnterManualIsCovered(s: Sup, site: Site, env: Env)
    ensures Covered(s, EnterManual(s, site, env).0)
  {
    hide Controls;
    hide Proven;
    hide Guarded;
    hide FailWrite;
    AskCommands(s, SetMode(Manual, site), env);
    FailIsSilent(Ask(s, SetMode(Manual, site), env).0, env);
    assert FailWrite(Ask(s, SetMode(Manual, site), env).0, env).l2Absent == s.l2Absent;
  }

  lemma PrepareIsSilent(s: Sup, env: Env)
    ensures Silent(s, Prepare(s, env)) && Covered(s, Prepare(s, env))
  {
    hide Controls;
    hide Proven;
    hide Guarded;
    hide ApplyMode;
    hide AutoRestoreRetry;
    AskCommands(s, Ping, env);
    var p := Note(s, Ping, env);
    AskCommands(p, ReadCmd, env);
    var (u, a) := Ask(p, ReadCmd, env);
    if Fresh(u, a.cmd) { ApplyModeIsSilent(u.(lastCmd := Some(a.cmd.doc)), a.cmd.doc.mode, env); }
    RetryIsSilent(ApplyCmdFile(p, env), env);
  }

  lemma ApplyModeIsSilent(s: Sup, requested: RunMode, env: Env)
    ensures var t := ApplyMode(s, requested, env);
            Silent(s, t) && Covered(s, t)
  {
    hide Controls;
    hide Proven;
    hide Guarded;
    if requested != ObserveMode {
      AskCommands(s, Rearmed, env);
    } else if s.mode != ObserveMode && s.manualArmed {
      AskCommands(s, SetMode(Auto, AtCommand), env);
      FailIsSilent(Ask(s, SetMode(Auto, AtCommand), env).0.(restorePending := true), env);
    }
  }

  lemma RetryIsSilent(s: Sup, env: Env)
    ensures var t := AutoRestoreRetry(s, env);
            Silent(s, t) && Covered(s, t)
  {
    hide Controls;
    hide Proven;
    hide Guarded;
    AskCommands(s, ReadFan(AtRetry), env);
    AskCommands(Ask(s, ReadFan(AtRetry), env).0, SetMode(Auto, AtRetry), env);
  }

  lemma WriteIsCovered(c: Setup, s: Sup, rpm: nat, env: Env)
    requires c.Ok()
    ensures Covered(s, WriteControlled(c, s, rpm, env).0)
  {
    hide Controls;
    hide Proven;
    hide Guarded;
    hide EnterManual;
    hide FailWrite;
    EnterManualIsCovered(s, AtAct, env);
    var (t, armed) := if s.manualArmed then (s, true) else EnterManual(s, AtAct, env);
    var call := WriteSpeed(Clamp(rpm, c.hwMin, c.hwMax), AtAct);
    AskCommands(t, call, env);
    FailIsSilent(Ask(t, call, env).0, env);
  }

  lemma ActIsCovered(c: Setup, s: Sup, d: Decision, env: Env)
    requires c.Ok()
    ensures Covered(s, Act(c, s, d, env).0)
  {
    hide Controls;
    hide Proven;
    hide Guarded;
    hide WriteControlled;
    match d
    case SetSpeed(rpm) => WriteIsCovered(c, s, rpm, env);
    case EscalateMax => WriteIsCovered(c, s, c.curve.maxRpm, env);
    case ReturnToAuto =>
      AskCommands(s, SetMode(Auto, AtAct), env);
      FailIsSilent(Ask(s, SetMode(Auto, AtAct), env).0, env);
    case Observe =>
  }

  lemma TrackIsCovered(c: Setup, s: Sup, prev: Option<nat>, rpm: nat, applied: Option<nat>, failed: bool, env: Env)
    requires c.Ok()
    ensures Covered(s, L1Track(c, s, prev, rpm, applied, failed, env).0)
  {
    hide Controls;
    hide Proven;
    hide Guarded;
    hide Reassert;
    hide StallCheck;
    if s.lastWritten.Some? {
      var written := s.lastWritten.value;
      ReassertIsCovered(c, s, written, env);
      var t := if !s.monitorOnly && OffTarget(written, rpm) && applied.None? then Reassert(c, s, written, env).0 else s;
      StallIsSilent(t, prev, rpm, written, env);
      AskCommands(StallCheck(t, prev, rpm, written, env).0.(writeFailures := 0), Healthy, env);
    }
  }

  lemma ReassertIsCovered(c: Setup, s: Sup, written: nat, env: Env)
    requires c.Ok()
    ensures Covered(s, Reassert(c, s, written, env).0)
  {
    hide Controls;
    hide Proven;
    hide Guarded;
    hide FailWrite;
    var call := WriteSpeed(Clamp(written, c.hwMin, c.hwMax), AtL1);
    AskCommands(s, call, env);
    FailIsSilent(Ask(s, call, env).0, env);
  }

  lemma StallIsSilent(s: Sup, prev: Option<nat>, rpm: nat, written: nat, env: Env)
    ensures var t := StallCheck(s, prev, rpm, written, env).0;
            Silent(s, t) && Covered(s, t)
  {
    hide Controls;
    hide Proven;
    hide Guarded;
    hide OffTarget;
    hide Moved;
    AskCommands(s, SetMode(Auto, OnStall), env);
  }

  /** L1 commands nothing unless the fan is owned and not being released. */
  lemma L1IsCovered(c: Setup, s: Sup, applied: Option<nat>, env: Env)
    requires c.Ok()
    ensures var t := L1Poll(c, s, applied, env).0;
            Covered(s, t) && (!s.manualArmed || s.restorePending ==> Silent(s, t))
  {
    hide Controls;
    hide Proven;
    hide Guarded;
    hide FailWrite;
    hide EnterManual;
    hide L1Track;
    AskCommands(s, ReadFan(AtL1), env);
    var (t, fan) := Ask(s, ReadFan(AtL1), env);
    FailIsSilent(t, env);
    var u := t.(prevActual := Some(fan.rpm));
    if fan.readable && u.manualArmed && !u.restorePending {
      EnterManualIsCovered(u, AtL1, env);
      var (v, held) := if fan.mode != Manual then EnterManual(u, AtL1, env) else (u, true);
      TrackIsCovered(c, v, s.prevActual, fan.rpm, applied, !held, env);
    }
  }

  /** One turn. If the supervisor is passive once the command file and the retry are done, the
      turn commands nothing: its only mode writes are to Auto. And with the restore path proven,
      or absent, every control write stays behind a proof. */
  lemma TurnCommands(c: Setup, s: Sup, env: Env)
    requires c.Ok() && Inv(c, s)
    ensures var t := Turn(c, s, env);
            && (Prepare(s, env).Passive() ==> Silent(s, t))
            && Covered(s, t)
  {
    hide Controls;
    hide Proven;
    hide Guarded;
    hide Prepare;
    hide Decide;
    hide Act;
    hide L1Poll;
    PrepareIsSilent(s, env);
    PrepareKeeps(c, s, env);
    var p := Prepare(s, env);
    DecideKeeps(c, p, env);
    AskCommands(p, ReadSensors, env);
    var (t, d) := Decide(c, p, env);
    ActIsCovered(c, t, d, env);
    ActKeeps(c, t, d, env);
    var (u, applied) := Act(c, t, d, env);
    assert t.Passive() ==> u == t by {
      if t.Passive() { ObserveDoesNothing(c, t, env); }
    }
    L1IsCovered(c, u, applied, env);
    AskCommands(L1Poll(c, u, applied, env).0, Ping, env);
    AskCommands(StepOnce(c, s, env).0, Nap(c.intervalS * 1000), env);
  }

  lemma ObserveDoesNothing(c: Setup, s: Sup, env: Env)
    requires c.Ok()
    ensures Act(c, s, Decision.Observe, env) == (s, None)
  {}

  /** A passive supervisor, after a quiet command file, writes nothing but Auto. */
  lemma PassiveMeansPassive(c: Setup, s: Sup, env: Env)
    requires c.Ok() && Inv(c, s) && s.Passive()
    requires !Fresh(s, env(|s.log| + 1).cmd)
    ensures Controls(Turn(c, s, env).log) == Controls(s.log)
    ensures Turn(c, s, env).Passive() && Turn(c, s, env).lastCmd == s.lastCmd
  {
    hide Controls;
    hide Proven;
    hide Guarded;
    hide Turn;
    PassiveTurn(c, s, env);
    TurnCommands(c, s, env);
  }

  // ---- no control without a proven restore ----

  ghost predicate ProofInv(s: Sup) { Guarded(s.log) && (s.l2Absent || Proven(s.log)) }

  lemma TurnKeepsProof(c: Setup, s: Sup, env: Env)
    requires c.Ok() && Inv(c, s) && ProofInv(s)
    ensures ProofInv(Turn(c, s, env)) && Turn(c, s, env).l2Absent == s.l2Absent
    ensures s.l2Absent ==> Controls(Turn(c, s, env).log) == Controls(s.log)
  {
    hide Controls;
    hide Proven;
    hide Guarded;
    hide Turn;
    TurnCommands(c, s, env);
    if s.l2Absent { AbsentStaysPassive(c, s, env); }
  }

  lemma AbsentStaysPassive(c: Setup, s: Sup, env: Env)
    requires c.Ok() && Inv(c, s) && s.l2Absent
    ensures Prepare(s, env).Passive()
  {
    PrepareKeeps(c, s, env);
    hide ApplyCmdFile;
    hide AutoRestoreRetry;
    var p := Note(s, Ping, env);
    assert ApplyCmdFile(p, env).l2Absent by { CommandKeepsAbsent(p, env); }
    assert Prepare(s, env).l2Absent by { RetryKeepsMode(ApplyCmdFile(p, env), env); }
  }

  lemma CommandKeepsAbsent(s: Sup, env: Env)
    ensures ApplyCmdFile(s, env).l2Absent == s.l2Absent
  {}

  lemma RetryKeepsMode(s: Sup, env: Env)
    ensures var t := AutoRestoreRetry(s, env);
            t.l2Absent == s.l2Absent && t.mode == s.mode && t.monitorOnly == s.monitorOnly && t.lastCmd == s.lastCmd && t.track == s.track
  {}

  lemma {:induction false} RunKeepsProof(c: Setup, s: Sup, env: Env, n: nat)
    requires c.Ok() && Inv(c, s) && ProofInv(s)
    ensures var t := Run(c, s, env, n);
            ProofInv(t) && t.l2Absent == s.l2Absent && (s.l2Absent ==> Controls(t.log) == Controls(s.log))
  {
    hide Turn;
    hide ProofInv;
    hide Controls;
    if n > 0 {
      RunKeepsProof(c, s, env, n - 1);
      RunKeeps(c, s, env, n - 1);
      TurnKeepsProof(c, Run(c, s, env, n - 1), env);
    }
  }

  lemma StartupProves(c: Setup, start: RunMode, env: Env)
    requires c.Ok()
    ensures var s := Startup(NewSup(c, start), env);
            ProofInv(s) && Controls(s.log) == 0 && s.l2Absent == !env(1).verified
  {
    hide Controls;
    hide Proven;
    hide Guarded;
    var s := NewSup(c, start);
    NothingLogged();
    AskCommands(s, ReadFan(AtStartup), env);
    var t := Ask(s, ReadFan(AtStartup), env).0;
    AskCommands(t, Probe, env);
    var (u, probe) := Ask(t, Probe, env);
    var v := u.(l2Absent := !probe.verified, mode := if probe.verified then u.mode else ObserveMode);
    AskCommands(v, SetMode(Auto, AtStartup), env);
  }

  lemma NothingLogged()
    ensures Controls([]) == 0 && !Proven([]) && Guarded([])
  {}

  lemma {:induction false} GuardedAt(log: seq<Event>, i: nat)
    requires Guarded(log) && i < |log| && IsControl(log[i].call)
    ensures exists j :: 0 <= j < i && IsProof(log[j])
  {
    var p := log[..|log| - 1];
    if i < |log| - 1 {
      GuardedAt(p, i);
      var j :| 0 <= j < i && IsProof(p[j]);
      assert IsProof(log[j]);
    } else {
      var j := ProofPosition(p);
      assert IsProof(log[j]);
    }
  }

  lemma {:induction false} ProofPosition(log: seq<Event>) returns (j: nat)
    requires Proven(log)
    ensures j < |log| && IsProof(log[j])
  {
    if IsProof(log[|log| - 1]) {
      j := |log| - 1;
    } else {
      j := ProofPosition(log[..|log| - 1]);
    }
  }

  /** No control without a proven restore. In every run each write that takes or drives the fan
      comes after a successful probe; and when startup's probe fails, the supervisor stays in
      Observe for ever and the log never holds a control write, whatever the command file says. */
  lemma NoControlWithoutProof(c: Setup, start: RunMode, env: Env, n: nat)
    requires c.Ok()
    ensures var s := Daemon(c, start, env, n);
            && (forall i :: 0 <= i < |s.log| && IsControl(s.log[i].call) ==> exists j :: 0 <= j < i && IsProof(s.log[j]))
            && (!env(1).verified ==> s.l2Absent && s.mode == ObserveMode && !s.manualArmed && Controls(s.log) == 0)
  {
    hide Startup;
    hide Turn;
    hide Controls;
    hide Guarded;
    hide Proven;
    StartupProves(c, start, env);
    StartupEstablishes(c, start, env);
    RunKeepsProof(c, Startup(NewSup(c, start), env), env, n);
    DaemonInvariant(c, start, env, n);
    var s := Daemon(c, start, env, n);
    forall i | 0 <= i < |s.log| && IsControl(s.log[i].call)
      ensures exists j :: 0 <= j < i && IsProof(s.log[j])
    {
      GuardedAt(s.log, i);
    }
  }

  // ---- the freshness gate ----

  /** Content that parses to a command and is not the content applied last. */
  predicate News(s: Sup, read: CmdRead) { read.Content? && read.doc.Request? && s.lastCmd != Some(read.doc) }

  /** Refused: control without a proven restore path. */
  predicate Refused(s: Sup, requested: RunMode) { s.l2Absent && requested != ObserveMode }

  /** What a turn's command read does, and nothing else in the turn does. News is recorded whether or
      not it is refused; unless it is, the turn ends in exactly the mode it asks for. Every other
      read changes neither. Monitor-only falls exactly on news that asks for control and is not
      refused, and the rest of the turn can only latch it. */
  lemma TurnGate(c: Setup, s: Sup, env: Env)
    requires c.Ok()
    ensures var t, p, read := Turn(c, s, env), Prepare(s, env), env(|s.log| + 1).cmd;
            && t.lastCmd == (if News(s, read) then Some(read.doc) else s.lastCmd)
            && t.mode == (if News(s, read) && !Refused(s, read.doc.mode) then read.doc.mode else s.mode)
            && (s.monitorOnly ==>
                  (!p.monitorOnly <==> News(s, read) && read.doc.mode != ObserveMode && !Refused(s, read.doc.mode)))
            && (p.monitorOnly ==> t.monitorOnly)
  {
    hide ApplyMode;
    hide AutoRestoreRetry;
    hide Decide;
    hide Act;
    hide L1Poll;
    var p := Note(s, Ping, env);
    var (u, a) := Ask(p, ReadCmd, env);
    if Fresh(u, a.cmd) { ApplyModeGate(u.(lastCmd := Some(a.cmd.doc)), a.cmd.doc.mode, env); }
    RetryKeepsMode(ApplyCmdFile(p, env), env);
    var q := Prepare(s, env);
    DecideFrame(c, q, env);
    var (v, d) := Decide(c, q, env);
    ActFrame(c, v, d, env);
    var (w, applied) := Act(c, v, d, env);
    L1Frame(c, w, applied, env);
  }

  /** Monitor-only falls in `ApplyMode` exactly on a request for control with the restore path present. */
  lemma ApplyModeGate(s: Sup, requested: RunMode, env: Env)
    ensures var t := ApplyMode(s, requested, env);
            && t.lastCmd == s.lastCmd && t.track == s.track
            && t.mode == (if Refused(s, requested) then s.mode else requested)
            && (s.monitorOnly ==> (!t.monitorOnly <==> requested != ObserveMode && !s.l2Absent))
  {
    hide FailWrite;
    FailFrame(Ask(s, SetMode(Auto, AtCommand), env).0.(restorePending := true), env);
  }

  /** Only ever latching: acting and verifying keep the mode, the command and the controller, and
      never clear monitor-only. */
  predicate Latches(s: Sup, t: Sup) {
    t.lastCmd == s.lastCmd && t.mode == s.mode && t.track == s.track && (s.monitorOnly ==> t.monitorOnly)
  }

  lemma DecideFrame(c: Setup, s: Sup, env: Env)
    requires c.Ok()
    ensures Latches(s, Decide(c, s, env).0.(track := s.track))
  {}

  lemma FailFrame(s: Sup, env: Env)
    ensures Latches(s, FailWrite(s, env))
  {}

  lemma EnterManualFrame(s: Sup, site: Site, env: Env)
    ensures Latches(s, EnterManual(s, site, env).0)
  {}

  lemma ActFrame(c: Setup, s: Sup, d: Decision, env: Env)
    requires c.Ok()
    ensures Latches(s, Act(c, s, d, env).0)
  {
    hide FailWrite;
    hide EnterManual;
    EnterManualFrame(s, AtAct, env);
    var t := if s.manualArmed then s else EnterManual(s, AtAct, env).0;
    FailFrame(Ask(s, SetMode(Auto, AtAct), env).0, env);
    if d.SetSpeed? { FailFrame(Ask(t, WriteSpeed(Clamp(d.rpm, c.hwMin, c.hwMax), AtAct), env).0, env); }
    FailFrame(Ask(t, WriteSpeed(Clamp(c.curve.maxRpm, c.hwMin, c.hwMax), AtAct), env).0, env);
  }

  lemma L1Frame(c: Setup, s: Sup, applied: Option<nat>, env: Env)
    requires c.Ok()
    ensures Latches(s, L1Poll(c, s, applied, env).0)
  {
    hide FailWrite;
    hide EnterManual;
    hide L1Track;
    var (t, fan) := Ask(s, ReadFan(AtL1), env);
    FailFrame(t, env);
    var u := t.(prevActual := Some(fan.rpm));
    EnterManualFrame(u, AtL1, env);
    var (v, held) := if fan.mode != Manual then EnterManual(u, AtL1, env) else (u, true);
    TrackFrame(c, v, s.prevActual, fan.rpm, applied, !held, env);
  }

  lemma TrackFrame(c: Setup, s: Sup, prev: Option<nat>, rpm: nat, applied: Option<nat>, failed: bool, env: Env)
    requires c.Ok()
    ensures Latches(s, L1Track(c, s, prev, rpm, applied, failed, env).0)
  {
    hide Reassert;
    hide StallCheck;
    if s.lastWritten.Some? {
      var written := s.lastWritten.value;
      ReassertFrame(c, s, written, env);
      var t := if !s.monitorOnly && OffTarget(written, rpm) && applied.None? then Reassert(c, s, written, env).0 else s;
      StallFrame(t, prev, rpm, written, env);
    }
  }

  lemma ReassertFrame(c: Setup, s: Sup, written: nat, env: Env)
    requires c.Ok()
    ensures Latches(s, Reassert(c, s, written, env).0)
  {
    hide FailWrite;
    FailFrame(Ask(s, WriteSpeed(Clamp(written, c.hwMin, c.hwMax), AtL1), env).0, env);
  }

  lemma StallFrame(s: Sup, prev: Option<nat>, rpm: nat, written: nat, env: Env)
    ensures Latches(s, StallCheck(s, prev, rpm, written, env).0)
  {}

  lemma PassiveTurn(c: Setup, s: Sup, env: Env)
    requires c.Ok() && s.Passive() && !Fresh(s, env(|s.log| + 1).cmd)
    ensures Turn(c, s, env).Passive() && Turn(c, s, env).lastCmd == s.lastCmd
    ensures Prepare(s, env).Passive()
  {
    hide Turn;
    hide AutoRestoreRetry;
    TurnGate(c, s, env);
    RetryKeepsMode(ApplyCmdFile(Note(s, Ping, env), env), env);
  }

  /** How many of the first `n` turns applied a command. */
  function Applications(c: Setup, s: Sup, env: Env, n: nat): nat
    requires c.Ok()
  {
    if n == 0 then 0
    else
      var t := Run(c, s, env, n - 1);
      Applications(c, s, env, n - 1) + if Fresh(t, env(|t.log| + 1).cmd) then 1 else 0
  }

  /** The command file holds one content, or is missing or unreadable, at every read. */
  ghost predicate OneContent(env: Env, doc: Doc) {
    forall k: nat :: env(k).cmd.Content? ==> env(k).cmd.doc == doc
  }

  /** A command file whose content never changes is applied at most once in a run, and from then
      on monitor-only, once latched, stays latched. */
  lemma {:induction false} AppliedAtMostOnce(c: Setup, s: Sup, env: Env, doc: Doc, n: nat)
    requires c.Ok() && OneContent(env, doc)
    ensures Applications(c, s, env, n) <= 1
    ensures Run(c, s, env, n).lastCmd == if Applications(c, s, env, n) == 0 then s.lastCmd else Some(doc)
    ensures Applications(c, s, env, n) == 1 && Run(c, s, env, n).monitorOnly ==> Turn(c, Run(c, s, env, n), env).monitorOnly
  {
    hide Turn;
    TurnGate(c, Run(c, s, env, n), env);
    if n > 0 {
      AppliedAtMostOnce(c, s, env, doc, n - 1);
      TurnGate(c, Run(c, s, env, n - 1), env);
    }
  }
}
