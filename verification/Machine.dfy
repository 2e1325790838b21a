/** The supervisor's poll loop as a function. A poll takes the supervisor's state and an
    environment that answers every call it makes, and gives the next state. The answers are
    arbitrary: whatever the command file, the sensors and the fan hardware do is some
    environment. Every call is logged with its answer. */
module Machine {
  import opened Basics
  import opened Limits
  import opened Policy
  import opened Smc

  datatype RunMode = ObserveMode | CurveMode | HoldMode(rpm: nat)

  /** The content of the command file. Two contents are the same text exactly when they are
      equal here; `text` stands for everything that parsing throws away. */
  datatype Doc = Malformed(text: nat) | Request(mode: RunMode, text: nat)

  datatype CmdRead = Absent | Unreadable | Content(doc: Doc)

  /** What the hardware did that the daemon cannot see: `took` when an unverified write was
      adopted after all, `reclaimed` when the firmware took the fan back before this call,
      `rate` how far the tachometer can move by the next read. */
  datatype Physics = Physics(took: bool, reclaimed: bool, rate: nat)

  /** One answer to any call; each call looks only at the fields it needs: a read at `readable`,
      a write or the probe at `verified`. `modeMs` and `speedMs` are what a mode write or a
      speed write slept in its settle windows. */
  datatype Answer = Answer(
    readable: bool,
    verified: bool,
    modeMs: nat,
    speedMs: nat,
    rpm: nat,
    mode: FanMode,
    readings: Readings,
    cmd: CmdRead,
    physics: Physics)

  /** The `k`-th call of a run gets answer `env(k)`. */
  type Env = nat -> Answer

  /** Where in the supervisor a hardware call comes from. */
  datatype Site = AtStartup | AtCommand | AtRetry | AtAct | AtL1 | OnThirdStrike | OnStall

  /** `Rearmed` and `Healthy` are not calls: they mark where the strike counter is cleared. */
  datatype Call =
    | Ping
    | Nap(napMs: nat)
    | ReadCmd
    | ReadSensors
    | ReadFan(site: Site)
    | SetMode(mode: FanMode, site: Site)
    | WriteSpeed(rpm: nat, site: Site)
    | Probe
    | Rearmed
    | Healthy

  datatype Event = Event(call: Call, answer: Answer)

  /** The validated configuration and the hardware band. */
  datatype Setup = Setup(curve: Curve, hwMin: nat, hwMax: nat, intervalS: nat) {
    predicate Ok() { curve.Ok() && hwMin < hwMax && 1 <= intervalS <= MAX_INTERVAL_S }
  }

  datatype Sup = Sup(
    track: Track,
    mode: RunMode,
    monitorOnly: bool,
    manualArmed: bool,
    restorePending: bool,
    lastWritten: Option<nat>,
    prevActual: Option<nat>,
    writeFailures: nat,
    stallPolls: nat,
    offTargetPolls: nat,
    l2Absent: bool,
    lastCmd: Option<Doc>,
    log: seq<Event>)
  {
    /** Control has been given up, by fallback or by command. */
    predicate Passive() { monitorOnly || mode == ObserveMode }
  }

  /** What one poll reports. */
  datatype Report = Report(mode: RunMode, tEff: Option<int>, decision: Decision, applied: Option<nat>, verified: bool)

  function Ask(s: Sup, call: Call, env: Env): (Sup, Answer) {
    (s.(log := s.log + [Event(call, env(|s.log|))]), env(|s.log|))
  }

  function Note(s: Sup, call: Call, env: Env): Sup { Ask(s, call, env).0 }

  // ---- the failure ladder ----

  /** Restore AUTO and latch monitor-only; an unverified restore keeps the fan owned and is retried. */
  function DegradeToAuto(s: Sup, site: Site, env: Env): Sup {
    var t := s.(monitorOnly := true, lastWritten := None, writeFailures := 0, stallPolls := 0, offTargetPolls := 0);
    var (u, a) := Ask(t, SetMode(Auto, site), env);
    if a.verified then u.(manualArmed := false, restorePending := false) else u.(restorePending := true)
  }

  function FailWrite(s: Sup, env: Env): Sup {
    var t := s.(writeFailures := s.writeFailures + 1);
    if t.writeFailures >= WRITE_FAIL_FALLBACK then DegradeToAuto(t, OnThirdStrike, env) else t
  }

  /** Put the fan into Manual; false on failure. */
  function EnterManual(s: Sup, site: Site, env: Env): (Sup, bool) {
    var (t, a) := Ask(s, SetMode(Manual, site), env);
    if a.verified then (t.(manualArmed := true), true) else (FailWrite(t, env), false)
  }

  // ---- step 1: the command file ----

  function ApplyMode(s: Sup, requested: RunMode, env: Env): Sup {
    if s.l2Absent && requested != ObserveMode then s
    else
      var t := if s.monitorOnly && requested != ObserveMode
               then Note(s.(monitorOnly := false, writeFailures := 0, restorePending := false), Rearmed, env)
               else s;
      if requested == t.mode then t
      else if requested == ObserveMode && t.manualArmed then
        var (u, a) := Ask(t, SetMode(Auto, AtCommand), env);
        (if a.verified then u.(manualArmed := false, lastWritten := None, restorePending := false)
         else FailWrite(u.(restorePending := true), env)).(mode := requested)
      else t.(mode := requested)
  }

  /** Content that is valid and not the content applied last. */
  predicate Fresh(s: Sup, read: CmdRead) { read.Content? && read.doc.Request? && s.lastCmd != Some(read.doc) }

  function ApplyCmdFile(s: Sup, env: Env): Sup {
    var (t, a) := Ask(s, ReadCmd, env);
    if Fresh(t, a.cmd) then ApplyMode(t.(lastCmd := Some(a.cmd.doc)), a.cmd.doc.mode, env) else t
  }

  // ---- step 1.5: the pending restore ----

  function Released(s: Sup): Sup {
    s.(restorePending := false, manualArmed := false, lastWritten := None, stallPolls := 0, offTargetPolls := 0)
  }

  function AutoRestoreRetry(s: Sup, env: Env): Sup {
    if !s.restorePending then s
    else
      var (t, a) := Ask(s, ReadFan(AtRetry), env);
      if a.readable && a.mode == Auto then Released(t)
      else
        var (u, b) := Ask(t, SetMode(Auto, AtRetry), env);
        if b.verified then Released(u) else u
  }

  // ---- step 2: sensors and controller ----

  function Sense(s: Sup, env: Env): (Sup, Readings) {
    var (t, a) := Ask(s, ReadSensors, env);
    (t, if a.readable then ScreenAll(a.readings) else [])
  }

  function ControllerStep(c: Setup, s: Sup, readings: Readings): (Sup, Decision)
    requires c.Ok()
  {
    var (k, d) := if s.Passive() then StepObserve(c.curve, s.track, readings)
                  else match s.mode
                       case CurveMode => StepCurve(c.curve, s.track, readings)
                       case HoldMode(rpm) => StepHold(c.curve, s.track, readings, rpm)
                       case ObserveMode => StepObserve(c.curve, s.track, readings);
    (s.(track := k), d)
  }

  // ---- step 3: act ----

  /** Write a clamped speed, taking the fan first if needed; a value already written is skipped. */
  function WriteControlled(c: Setup, s: Sup, rpm: nat, env: Env): (Sup, Option<nat>)
    requires c.Ok()
  {
    var (t, armed) := if s.manualArmed then (s, true) else EnterManual(s, AtAct, env);
    var target := Clamp(rpm, c.hwMin, c.hwMax);
    if !armed || t.lastWritten == Some(target) then (t, None)
    else
      var (u, a) := Ask(t, WriteSpeed(target, AtAct), env);
      if a.verified then (u.(lastWritten := Some(target)), Some(target)) else (FailWrite(u, env), None)
  }

  /** Hand the fan back after a full run of lost polls. */
  function ReturnFan(s: Sup, env: Env): Sup {
    if !s.manualArmed then s
    else
      var (t, a) := Ask(s, SetMode(Auto, AtAct), env);
      if a.verified then t.(manualArmed := false, lastWritten := None) else FailWrite(t, env)
  }

  function Act(c: Setup, s: Sup, d: Decision, env: Env): (Sup, Option<nat>)
    requires c.Ok()
  {
    if s.monitorOnly then (s, None)
    else match d
         case Observe => (s, None)
         case ReturnToAuto => (ReturnFan(s, env), None)
         case SetSpeed(rpm) => WriteControlled(c, s, rpm, env)
         case EscalateMax => WriteControlled(c, s, c.curve.maxRpm, env)
  }

  /** The speed a decision puts into the register. */
  function Target(c: Setup, d: Decision): Option<nat>
    requires c.Ok()
  {
    match d
    case SetSpeed(rpm) => Some(Clamp(rpm, c.hwMin, c.hwMax))
    case EscalateMax => Some(Clamp(c.curve.maxRpm, c.hwMin, c.hwMax))
    case _ => None
  }

  // ---- step 4: L1 ----

  /** Re-assert the written value; only a failing write counts. True when it failed. */
  function Reassert(c: Setup, s: Sup, written: nat, env: Env): (Sup, bool)
    requires c.Ok()
  {
    var (t, a) := Ask(s, WriteSpeed(Clamp(written, c.hwMin, c.hwMax), AtL1), env);
    if a.verified then (t.(lastWritten := Some(Clamp(written, c.hwMin, c.hwMax))), false) else (FailWrite(t, env), true)
  }

  predicate Moved(prev: Option<nat>, rpm: nat) { prev.Some? && AbsDiff(rpm, prev.value) > STALL_TACH_EPSILON_RPM }

  predicate OffTarget(written: nat, rpm: nat) { AbsDiff(rpm, written) > VERIFY_TOLERANCE_RPM }

  /** On target: within 150 rpm of the written speed, on either side. */
  lemma OnTargetMeans(written: nat, rpm: nat)
    ensures !OffTarget(written, rpm) <==> written - 150 <= rpm <= written + 150
  {
    WithinDistance(rpm, written, 150);
  }

  /** Motionless: no reading before this one, or within 50 rpm of it. */
  lemma StillMeans(prev: Option<nat>, rpm: nat)
    ensures !Moved(prev, rpm) <==> prev.None? || prev.value - 50 <= rpm <= prev.value + 50
  {
    if prev.Some? { WithinDistance(rpm, prev.value, 50); }
  }

  /** The stall window, keyed on tachometer movement. True when it fires. */
  function StallCheck(s: Sup, prev: Option<nat>, rpm: nat, written: nat, env: Env): (Sup, bool) {
    if !OffTarget(written, rpm) then (s.(stallPolls := 0, offTargetPolls := 0), false)
    else
      var t := s.(offTargetPolls := s.offTargetPolls + 1);
      if Moved(prev, rpm) then (t.(stallPolls := 0), false)
      else if t.stallPolls + 1 >= STALL_POLLS then
        (DegradeToAuto(t.(stallPolls := 0, offTargetPolls := 0), OnStall, env), true)
      else (t.(stallPolls := t.stallPolls + 1), false)
  }

  /** Tracking, stall window and verdict, once the fan mode has been seen to. */
  function L1Track(c: Setup, s: Sup, prev: Option<nat>, rpm: nat, applied: Option<nat>, failed: bool, env: Env): (Sup, bool)
    requires c.Ok()
  {
    if s.lastWritten.None? then (s, !failed)
    else
      var written := s.lastWritten.value;
      var (t, reassertFailed) :=
        if !s.monitorOnly && OffTarget(written, rpm) && applied.None? then Reassert(c, s, written, env)
        else (s, false);
      var (u, stalled) := StallCheck(t, prev, rpm, written, env);
      if stalled || failed || reassertFailed then (u, false)
      else (Note(u.(writeFailures := 0), Healthy, env), true)
  }

  function L1Poll(c: Setup, s: Sup, applied: Option<nat>, env: Env): (Sup, bool)
    requires c.Ok()
  {
    var (t, fan) := Ask(s, ReadFan(AtL1), env);
    if !fan.readable then (FailWrite(t, env), false)
    else
      var u := t.(prevActual := Some(fan.rpm));
      if !u.manualArmed then (u.(stallPolls := 0, offTargetPolls := 0), true)
      else if u.restorePending then (u, true)
      else
        var (v, held) := if fan.mode != Manual then EnterManual(u, AtL1, env) else (u, true);
        L1Track(c, v, s.prevActual, fan.rpm, applied, !held, env)
  }

  // ---- a poll ----

  /** Steps 1 and 1.5: everything before the sensors are read. */
  function Prepare(s: Sup, env: Env): Sup { AutoRestoreRetry(ApplyCmdFile(Note(s, Ping, env), env), env) }

  /** Step 2: the decision. */
  function Decide(c: Setup, s: Sup, env: Env): (Sup, Decision)
    requires c.Ok()
  {
    var (t, readings) := Sense(s, env);
    ControllerStep(c, t, readings)
  }

  function StepOnce(c: Setup, s: Sup, env: Env): (Sup, Report)
    requires c.Ok()
  {
    var (t, d) := Decide(c, Prepare(s, env), env);
    var (u, applied) := Act(c, t, d, env);
    var (v, l1Ok) := L1Poll(c, u, applied, env);
    (Note(v, Ping, env), Report(v.mode, v.track.lastT, d, applied, !v.monitorOnly && l1Ok))
  }

  // ---- startup and runs ----

  function NewSup(c: Setup, start: RunMode): Sup
    requires c.Ok()
  {
    Sup(Start(c.curve),
        if start.HoldMode? then HoldMode(Clamp(start.rpm, c.hwMin, c.hwMax)) else start,
        false, false, false, None, None, 0, 0, 0, false, None, [])
  }

  function DegradeStartup(s: Sup): Sup {
    s.(mode := ObserveMode, monitorOnly := true, manualArmed := false, lastWritten := None,
       writeFailures := 0, stallPolls := 0, offTargetPolls := 0, restorePending := false)
  }

  /** Judge the fan mode inherited from a predecessor that may have died owning the fan. */
  function Reconcile(s: Sup, inherited: Answer, env: Env): Sup {
    if !inherited.readable then if s.mode != ObserveMode then DegradeStartup(s) else s
    else if inherited.mode == Auto then s
    else
      var (t, a) := Ask(s, SetMode(Auto, AtStartup), env);
      if a.verified then t.(manualArmed := false, lastWritten := None) else DegradeStartup(t)
  }

  /** Sample the inherited fan mode, probe the restore path, refuse control without it, reconcile. */
  function Startup(s: Sup, env: Env): Sup {
    var (t, inherited) := Ask(s, ReadFan(AtStartup), env);
    var (u, probe) := Ask(t, Probe, env);
    var v := u.(l2Absent := !probe.verified, mode := if probe.verified then u.mode else ObserveMode);
    Reconcile(v, inherited, env)
  }

  /** One turn of the daemon's loop: a poll, then the sleep between polls. */
  function Turn(c: Setup, s: Sup, env: Env): Sup
    requires c.Ok()
  {
    Note(StepOnce(c, s, env).0, Nap(c.intervalS * 1000), env)
  }

  /** The state after `n` turns. */
  function Run(c: Setup, s: Sup, env: Env, n: nat): Sup
    requires c.Ok()
  {
    if n == 0 then s else Turn(c, Run(c, s, env, n - 1), env)
  }

  /** The daemon from its construction on. */
  function Daemon(c: Setup, start: RunMode, env: Env, n: nat): Sup
    requires c.Ok()
  {
    Run(c, Startup(NewSup(c, start), env), env, n)
  }
}
