/** The loop closed over honest hardware: a register that adopts writes within the settle window
    and a tachometer that lags behind it. */
module HonestFan {
  import opened Basics
  import opened Limits
  import opened Policy
  import opened Smc
  import opened Machine
  import opened Invariants

  /** The fan: its tachometer, its target register and its mode. */
  datatype Hw = Hw(rpm: nat, reg: nat, mode: FanMode)

  /** Move at most `rate` toward the register, never past it. */
  function TachSlew(from: nat, reg: nat, rate: nat): nat {
    if reg >= from then Min(from + rate, reg) else Max(Max(from - rate, 0), reg)
  }

  /** It moves by exactly the smaller of `rate` and the distance, and closer by as much. */
  lemma TachSlewMoves(from: nat, reg: nat, rate: nat)
    ensures AbsDiff(TachSlew(from, reg, rate), from) == Min(rate, AbsDiff(from, reg))
    ensures AbsDiff(TachSlew(from, reg, rate), reg) == AbsDiff(from, reg) - Min(rate, AbsDiff(from, reg))
  {}

  /** Reading the tachometer lets it slew while we drive the fan; in Auto the firmware moves it to
      `seen` and the register mirrors it. */
  function ReadTach(h: Hw, rate: nat, seen: nat): Hw {
    if h.mode == Manual then h.(rpm := TachSlew(h.rpm, h.reg, rate)) else h.(rpm := seen, reg := seen)
  }

  /** A mode write verifies when the echo adopts it inside a window, or shows it already. */
  predicate ModeVerifies(h: Hw, want: FanMode, latency: nat) { latency < ECHO_SETTLE_SAMPLES || h.mode == want }

  function WriteMode(h: Hw, want: FanMode, latency: nat): Hw {
    if !ModeVerifies(h, want, latency) then h
    else h.(mode := want, reg := if want == Auto then h.rpm else h.reg)
  }

  /** In Manual the register takes the value; in Auto it keeps mirroring the fan. */
  predicate SpeedVerifies(h: Hw, target: nat) { h.mode == Manual || EchoAccepted(target, h.reg) }

  function WriteReg(h: Hw, target: nat): Hw { if h.mode == Manual then h.(reg := target) else h }

  /** What the register echoes while a speed write settles: in Manual it takes the value with the
      first write, and shows it once the latency or the first window has passed; in Auto it mirrors
      the fan throughout. */
  function SpeedEcho(h: Hw, target: nat, latency: nat): nat -> Option<nat> {
    HonestEcho(h.reg, if h.mode == Manual then target else h.reg, Min(latency, ECHO_SETTLE_SAMPLES))
  }

  /** The honest fan is the settle protocol over honest registers: a mode write and a speed write
      verify here exactly when they do there, with either generation's tokens. */
  lemma HonestFanIsSettled(h: Hw, want: FanMode, target: nat, latency: nat, abi: Abi)
    ensures ModeVerifies(h, want, latency) <==>
            SettleOutcome(RestartingEcho(abi.Token(h.mode), abi.Token(want), latency), (_: nat) => true,
                          (rb: nat) => rb == abi.Token(want), 0, 0).end.Verified?
    ensures SpeedVerifies(h, target) <==>
            SettleOutcome(SpeedEcho(h, target, latency), (_: nat) => true,
                          (rb: nat) => EchoAccepted(target, rb), 0, 0).end.Verified?
  {
    RestartingWriteVerifies(abi.Token(h.mode), abi.Token(want), latency, (rb: nat) => rb == abi.Token(want));
    var accepted := (rb: nat) => EchoAccepted(target, rb);
    if h.mode == Manual || EchoAccepted(target, h.reg) {
      if h.mode == Manual { HonestWriteVerifies(h.reg, target, Min(latency, ECHO_SETTLE_SAMPLES), accepted); }
      else { HonestWriteVerifies(h.reg, h.reg, Min(latency, ECHO_SETTLE_SAMPLES), accepted); }
    } else {
      SettleSucceedsExactly(SpeedEcho(h, target, latency), (_: nat) => true, accepted, 0, 0);
    }
  }

  /** The test suite's mock backend in tach-lag mode, updated in place; latency is counted in
      echo samples. */
  class MockSmc {
    var rpm: nat
    var outReg: nat
    var mode: FanMode
    var writeAttempts: nat
    const hwMin: nat
    const hwMax: nat
    const lagRate: nat
    const echoLatency: nat

    function View(): Hw
      reads this
    {
      Hw(rpm, outReg, mode)
    }

    constructor (hwMin: nat, hwMax: nat, lagRate: nat, echoLatency: nat)
      ensures this.hwMin == hwMin && this.hwMax == hwMax
      ensures this.lagRate == lagRate && this.echoLatency == echoLatency
      ensures View() == Hw(hwMin, hwMin, Auto) && writeAttempts == 0
    {
      this.hwMin, this.hwMax, this.lagRate, this.echoLatency := hwMin, hwMax, lagRate, echoLatency;
      rpm, outReg, mode, writeAttempts := hwMin, hwMin, Auto, 0;
    }

    method Tachometer() returns (seen: nat, m: FanMode)
      modifies this`rpm, this`outReg
      ensures View() == ReadTach(old(View()), lagRate, old(rpm))
      ensures seen == rpm && m == mode
    {
      if mode == Manual {
        rpm := TachSlew(rpm, outReg, lagRate);
      } else {
        outReg := rpm;
      }
      return rpm, mode;
    }

    /** The echo holds the value before this attempt until the latency has passed. */
    method DriveSpeed(request: nat) returns (ok: bool)
      requires hwMin <= hwMax
      modifies this
      ensures var target := Clamp(request, hwMin, hwMax);
              && ok == SpeedVerifies(old(View()), target)
              && View() == WriteReg(old(View()), target)
              && writeAttempts - old(writeAttempts) ==
                 (if EchoAccepted(target, old(outReg)) || (mode == Manual && echoLatency < ECHO_SETTLE_SAMPLES) then 1 else 2)
    {
      var target := Clamp(request, hwMin, hwMax);
      for attempt := 0 to WRITE_RETRY_MAX + 1
        invariant mode == old(mode) && rpm == old(rpm) && writeAttempts == old(writeAttempts) + attempt
        invariant attempt == 0 ==> outReg == old(outReg)
        invariant attempt > 0 ==> outReg == (if mode == Manual then target else old(outReg))
        invariant attempt > 0 ==> !EchoAccepted(target, old(outReg)) && (mode == Manual ==> echoLatency >= ECHO_SETTLE_SAMPLES)
        invariant attempt > 1 ==> mode == Auto
      {
        writeAttempts := writeAttempts + 1;
        var stale := outReg;
        for n := 0 to ECHO_SETTLE_SAMPLES
          invariant mode == old(mode) && rpm == old(rpm) && writeAttempts == old(writeAttempts) + attempt + 1
          invariant outReg == if mode == Manual && n > 0 then target else stale
          invariant n > 0 ==> !EchoAccepted(target, stale) && (mode == Manual ==> echoLatency >= n)
        {
          if mode == Manual {
            outReg := target;
          }
          var readBack := if mode == Manual && n < echoLatency then stale else outReg;
          if EchoAccepted(target, readBack) {
            return true;
          }
        }
      }
      return false;
    }

    method SwitchMode(want: FanMode) returns (ok: bool)
      modifies this
      ensures ok == ModeVerifies(old(View()), want, echoLatency)
      ensures View() == WriteMode(old(View()), want, echoLatency)
    {
      for attempt := 0 to WRITE_RETRY_MAX + 1
        invariant View() == old(View())
        invariant attempt > 0 ==> !ModeVerifies(old(View()), want, echoLatency)
      {
        writeAttempts := writeAttempts + 1;
        for n := 0 to ECHO_SETTLE_SAMPLES
          invariant View() == old(View())
          invariant n > 0 ==> mode != want && echoLatency >= n
        {
          var got := if n >= echoLatency then want else mode;
          if got == want {
            mode := want;
            if want == Auto {
              outReg := rpm;
            }
            return true;
          }
        }
      }
      return false;
    }
  }

  // ---- honest runs ----

  function HwAfter(h: Hw, e: Event, latency: nat): Hw {
    match e.call
    case ReadFan(_) => ReadTach(h, e.answer.physics.rate, e.answer.rpm)
    case SetMode(want, _) => WriteMode(h, want, latency)
    case WriteSpeed(target, _) => WriteReg(h, target)
    case Probe => h.(mode := Auto, reg := h.rpm)
    case _ => h
  }

  /** The answer honest hardware gives in state `h`; the tachometer may move at any rate above the
      stall detector's epsilon, a different one at every read. */
  predicate Answers(h: Hw, e: Event, latency: nat) {
    match e.call
    case ReadFan(_) =>
      && e.answer.readable && e.answer.mode == h.mode
      && e.answer.physics.rate > STALL_TACH_EPSILON_RPM
      && e.answer.rpm == ReadTach(h, e.answer.physics.rate, e.answer.rpm).rpm
    case SetMode(want, _) => e.answer.verified == ModeVerifies(h, want, latency)
    case WriteSpeed(target, _) => e.answer.verified == SpeedVerifies(h, target)
    case Probe => e.answer.verified
    case _ => true
  }

  function HwOf(h: Hw, log: seq<Event>, latency: nat): Hw {
    if log == [] then h else HwAfter(HwOf(h, log[..|log| - 1], latency), log[|log| - 1], latency)
  }

  /** Everything else is free: commands, temperatures, sensor losses. */
  predicate Honest(h: Hw, log: seq<Event>, latency: nat) {
    log == [] ||
    (Honest(h, log[..|log| - 1], latency) && Answers(HwOf(h, log[..|log| - 1], latency), log[|log| - 1], latency))
  }

  lemma AskHonest(h: Hw, s: Sup, call: Call, env: Env, l: nat)
    ensures var t := Ask(s, call, env).0;
            var e := Event(call, env(|s.log|));
            && HwOf(h, t.log, l) == HwAfter(HwOf(h, s.log, l), e, l)
            && (Honest(h, t.log, l) <==> Honest(h, s.log, l) && Answers(HwOf(h, s.log, l), e, l))
  {
    var e := Event(call, env(|s.log|));
    assert (s.log + [e])[..|s.log|] == s.log;
  }

  /** In Auto the register mirrors the fan: true of every history of the fan, however it is driven,
      that starts out so. */
  lemma {:induction false} AutoMirrors(h: Hw, log: seq<Event>, latency: nat)
    requires h.mode == Auto ==> h.reg == h.rpm
    ensures var now := HwOf(h, log, latency); now.mode == Auto ==> now.reg == now.rpm
  {
    if log != [] { AutoMirrors(h, log[..|log| - 1], latency); }
  }

  /** The supervisor's picture and the hardware agree, and nothing has gone wrong. */
  predicate InStep(s: Sup, h: Hw) {
    && !s.monitorOnly && !s.restorePending && s.writeFailures == 0 && s.stallPolls <= 1
    && (s.manualArmed <==> h.mode == Manual)
    && (s.lastWritten.Some? ==> s.manualArmed && h.reg == s.lastWritten.value)
    && (s.stallPolls == 1 ==> s.prevActual == Some(h.rpm))
  }

  ghost predicate Well(h: Hw, s: Sup, l: nat) { Honest(h, s.log, l) ==> InStep(s, HwOf(h, s.log, l)) }

  lemma PrepareStaysWell(h: Hw, s: Sup, env: Env, l: nat)
    requires l < ECHO_SETTLE_SAMPLES && Well(h, s, l)
    ensures Well(h, Prepare(s, env), l)
    ensures Honest(h, Prepare(s, env).log, l) ==> Honest(h, s.log, l)
  {
    hide HwOf;
    hide Honest;
    hide ApplyMode;
    AskHonest(h, s, Ping, env, l);
    var p := Note(s, Ping, env);
    AskHonest(h, p, ReadCmd, env, l);
    var (u, a) := Ask(p, ReadCmd, env);
    if Fresh(u, a.cmd) { ApplyModeStaysWell(h, u.(lastCmd := Some(a.cmd.doc)), a.cmd.doc.mode, env, l); }
    RetryStaysWell(h, ApplyCmdFile(p, env), env, l);
  }

  lemma RetryStaysWell(h: Hw, s: Sup, env: Env, l: nat)
    requires Well(h, s, l)
    ensures Honest(h, AutoRestoreRetry(s, env).log, l) ==> Honest(h, s.log, l) && AutoRestoreRetry(s, env) == s
  {
    hide HwOf;
    hide Honest;
    AskHonest(h, s, ReadFan(AtRetry), env, l);
    AskHonest(h, Ask(s, ReadFan(AtRetry), env).0, SetMode(Auto, AtRetry), env, l);
  }

  lemma ApplyModeStaysWell(h: Hw, s: Sup, requested: RunMode, env: Env, l: nat)
    requires l < ECHO_SETTLE_SAMPLES && Well(h, s, l)
    ensures Well(h, ApplyMode(s, requested, env), l)
    ensures Honest(h, ApplyMode(s, requested, env).log, l) ==> Honest(h, s.log, l)
  {
    hide HwOf;
    hide Honest;
    hide FailWrite;
    if requested != ObserveMode {
      AskHonest(h, s, Rearmed, env, l);
    } else if s.mode != ObserveMode && s.manualArmed {
      AskHonest(h, s, SetMode(Auto, AtCommand), env, l);
      FailShows(h, Ask(s, SetMode(Auto, AtCommand), env).0.(restorePending := true), env, l);
    }
  }

  /** Failing steps only add to the log. */
  lemma FailShows(h: Hw, s: Sup, env: Env, l: nat)
    ensures Honest(h, FailWrite(s, env).log, l) ==> Honest(h, s.log, l)
  {
    hide HwOf;
    hide Honest;
    AskHonest(h, s, SetMode(Auto, OnThirdStrike), env, l);
  }

  lemma EnterManualShows(h: Hw, s: Sup, env: Env, l: nat)
    ensures Honest(h, EnterManual(s, AtL1, env).0.log, l) ==> Honest(h, s.log, l)
  {
    hide HwOf;
    hide Honest;
    hide FailWrite;
    AskHonest(h, s, SetMode(Manual, AtL1), env, l);
    FailShows(h, Ask(s, SetMode(Manual, AtL1), env).0, env, l);
  }

  lemma ReassertShows(c: Setup, h: Hw, s: Sup, written: nat, env: Env, l: nat)
    requires c.Ok()
    ensures Honest(h, Reassert(c, s, written, env).0.log, l) ==> Honest(h, s.log, l)
  {
    hide HwOf;
    hide Honest;
    hide FailWrite;
    var call := WriteSpeed(Clamp(written, c.hwMin, c.hwMax), AtL1);
    AskHonest(h, s, call, env, l);
    FailShows(h, Ask(s, call, env).0, env, l);
  }

  lemma StallShows(h: Hw, s: Sup, prev: Option<nat>, rpm: nat, written: nat, env: Env, l: nat)
    ensures Honest(h, StallCheck(s, prev, rpm, written, env).0.log, l) ==> Honest(h, s.log, l)
  {
    hide HwOf;
    hide Honest;
    AskHonest(h, s, SetMode(Auto, OnStall), env, l);
  }

  lemma TrackShows(c: Setup, h: Hw, s: Sup, prev: Option<nat>, rpm: nat, applied: Option<nat>, failed: bool, env: Env, l: nat)
    requires c.Ok()
    ensures Honest(h, L1Track(c, s, prev, rpm, applied, failed, env).0.log, l) ==> Honest(h, s.log, l)
  {
    hide HwOf;
    hide Honest;
    hide Reassert;
    hide StallCheck;
    if s.lastWritten.Some? {
      var written := s.lastWritten.value;
      ReassertShows(c, h, s, written, env, l);
      var t := if !s.monitorOnly && OffTarget(written, rpm) && applied.None? then Reassert(c, s, written, env).0 else s;
      StallShows(h, t, prev, rpm, written, env, l);
      AskHonest(h, StallCheck(t, prev, rpm, written, env).0.(writeFailures := 0), Healthy, env, l);
    }
  }

  lemma WriteStaysWell(c: Setup, h: Hw, s: Sup, rpm: nat, env: Env, l: nat)
    requires c.Ok() && l < ECHO_SETTLE_SAMPLES && Well(h, s, l)
    ensures var t := WriteControlled(c, s, rpm, env).0;
            Well(h, t, l) && (Honest(h, t.log, l) ==> Honest(h, s.log, l))
  {
    hide HwOf;
    hide Honest;
    hide FailWrite;
    AskHonest(h, s, SetMode(Manual, AtAct), env, l);
    FailShows(h, Ask(s, SetMode(Manual, AtAct), env).0, env, l);
    var (t, armed) := if s.manualArmed then (s, true) else EnterManual(s, AtAct, env);
    var call := WriteSpeed(Clamp(rpm, c.hwMin, c.hwMax), AtAct);
    AskHonest(h, t, call, env, l);
    FailShows(h, Ask(t, call, env).0, env, l);
  }

  lemma ActStaysWell(c: Setup, h: Hw, s: Sup, d: Decision, env: Env, l: nat)
    requires c.Ok() && l < ECHO_SETTLE_SAMPLES && Well(h, s, l)
    ensures var t := Act(c, s, d, env).0;
            Well(h, t, l) && (Honest(h, t.log, l) ==> Honest(h, s.log, l))
  {
    hide HwOf;
    hide Honest;
    hide FailWrite;
    hide WriteControlled;
    match d
    case SetSpeed(rpm) => WriteStaysWell(c, h, s, rpm, env, l);
    case EscalateMax => WriteStaysWell(c, h, s, c.curve.maxRpm, env, l);
    case ReturnToAuto =>
      AskHonest(h, s, SetMode(Auto, AtAct), env, l);
      FailShows(h, Ask(s, SetMode(Auto, AtAct), env).0, env, l);
    case Observe =>
  }

  /** A lagging tachometer that has not reached the register has moved by its whole rate. */
  lemma LagIsMotion(from: nat, reg: nat, rate: nat)
    requires rate > STALL_TACH_EPSILON_RPM && OffTarget(reg, TachSlew(from, reg, rate))
    ensures Moved(Some(from), TachSlew(from, reg, rate))
  {}

  /** Re-asserting the remembered speed on an honest driven fan verifies and changes nothing. */
  lemma ReassertStaysWell(c: Setup, h: Hw, s: Sup, env: Env, l: nat)
    requires c.Ok() && Inv(c, s) && s.lastWritten.Some?
    requires Honest(h, s.log, l) ==> InStep(s.(stallPolls := 0), HwOf(h, s.log, l))
    ensures var (t, failed) := Reassert(c, s, s.lastWritten.value, env);
            Honest(h, t.log, l) ==>
              Honest(h, s.log, l) && !failed && t == s.(log := t.log) && HwOf(h, t.log, l) == HwOf(h, s.log, l)
  {
    hide HwOf;
    hide Honest;
    hide FailWrite;
    var call := WriteSpeed(Clamp(s.lastWritten.value, c.hwMin, c.hwMax), AtL1);
    AskHonest(h, s, call, env, l);
    FailShows(h, Ask(s, call, env).0, env, l);
  }

  lemma TrackStaysWell(c: Setup, h: Hw, s: Sup, prev: Option<nat>, rpm: nat, applied: Option<nat>, env: Env, l: nat)
    requires c.Ok() && Inv(c, s)
    requires Honest(h, s.log, l) ==>
               && InStep(s.(stallPolls := 0), HwOf(h, s.log, l)) && s.manualArmed && s.stallPolls <= 1
               && s.prevActual == Some(rpm) && HwOf(h, s.log, l).rpm == rpm
               && (s.stallPolls == 1 && s.lastWritten.Some? && OffTarget(s.lastWritten.value, rpm) ==> Moved(prev, rpm))
    ensures var (t, ok) := L1Track(c, s, prev, rpm, applied, false, env);
            && Well(h, t, l)
            && (Honest(h, t.log, l) ==> ok && Honest(h, s.log, l))
  {
    hide HwOf;
    hide Honest;
    hide OffTarget;
    hide Moved;
    hide Reassert;
    if s.lastWritten.Some? {
      var written := s.lastWritten.value;
      ReassertStaysWell(c, h, s, env, l);
      var t := if !s.monitorOnly && OffTarget(written, rpm) && applied.None? then Reassert(c, s, written, env).0 else s;
      StallShows(h, t, prev, rpm, written, env, l);
      var u := StallCheck(t, prev, rpm, written, env).0;
      AskHonest(h, u.(writeFailures := 0), Healthy, env, l);
    }
  }

  lemma L1StaysWell(c: Setup, h: Hw, s: Sup, applied: Option<nat>, env: Env, l: nat)
    requires c.Ok() && Inv(c, s) && l < ECHO_SETTLE_SAMPLES && Well(h, s, l)
    ensures var (t, ok) := L1Poll(c, s, applied, env);
            && Well(h, t, l)
            && (Honest(h, t.log, l) ==> ok && Honest(h, s.log, l) && Honest(h, Note(s, ReadFan(AtL1), env).log, l))
  {
    hide HwOf;
    hide Honest;
    hide FailWrite;
    hide EnterManual;
    hide L1Track;
    AskHonest(h, s, ReadFan(AtL1), env, l);
    var (t, fan) := Ask(s, ReadFan(AtL1), env);
    FailShows(h, t, env, l);
    var u := t.(prevActual := Some(fan.rpm));
    if fan.readable && u.manualArmed && !u.restorePending {
      if fan.mode == Manual {
        var hw := HwOf(h, s.log, l);
        if s.lastWritten.Some? && fan.physics.rate > STALL_TACH_EPSILON_RPM && OffTarget(hw.reg, TachSlew(hw.rpm, hw.reg, fan.physics.rate)) {
          LagIsMotion(hw.rpm, hw.reg, fan.physics.rate);
        }
        TrackStaysWell(c, h, u, s.prevActual, fan.rpm, applied, env, l);
      } else {
        var (v, held) := EnterManual(u, AtL1, env);
        EnterManualShows(h, u, env, l);
        TrackShows(c, h, v, s.prevActual, fan.rpm, applied, !held, env, l);
      }
    }
  }

  lemma TurnStaysWell(c: Setup, h: Hw, s: Sup, env: Env, l: nat)
    requires c.Ok() && Inv(c, s) && l < ECHO_SETTLE_SAMPLES && Well(h, s, l)
    ensures var t := Turn(c, s, env);
            && Well(h, t, l)
            && (Honest(h, t.log, l) ==> Honest(h, s.log, l) && StepOnce(c, s, env).1.verified)
  {
    hide HwOf;
    hide Honest;
    hide Prepare;
    hide Decide;
    hide Act;
    hide L1Poll;
    PrepareStaysWell(h, s, env, l);
    PrepareKeeps(c, s, env);
    var p := Prepare(s, env);
    DecideKeeps(c, p, env);
    AskHonest(h, p, ReadSensors, env, l);
    var (t, d) := Decide(c, p, env);
    ActStaysWell(c, h, t, d, env, l);
    ActKeeps(c, t, d, env);
    var (u, applied) := Act(c, t, d, env);
    L1StaysWell(c, h, u, applied, env, l);
    var v := L1Poll(c, u, applied, env).0;
    AskHonest(h, v, Ping, env, l);
    AskHonest(h, StepOnce(c, s, env).0, Nap(c.intervalS * 1000), env, l);
  }

  lemma {:induction false} RunStaysWell(c: Setup, h: Hw, s: Sup, env: Env, l: nat, n: nat)
    requires c.Ok() && Inv(c, s) && l < ECHO_SETTLE_SAMPLES && Well(h, s, l)
    ensures Well(h, Run(c, s, env, n), l)
  {
    hide Turn;
    hide Well;
    if n > 0 {
      RunStaysWell(c, h, s, env, l, n - 1);
      RunKeeps(c, s, env, n - 1);
      TurnStaysWell(c, h, Run(c, s, env, n - 1), env, l);
    }
  }

  lemma StartupStaysWell(c: Setup, start: RunMode, h: Hw, env: Env, l: nat)
    requires c.Ok() && l < ECHO_SETTLE_SAMPLES
    ensures Well(h, Startup(NewSup(c, start), env), l)
  {
    hide HwOf;
    hide Honest;
    var s := NewSup(c, start);
    AskHonest(h, s, ReadFan(AtStartup), env, l);
    var t := Ask(s, ReadFan(AtStartup), env).0;
    AskHonest(h, t, Probe, env, l);
    var (u, probe) := Ask(t, Probe, env);
    var v := u.(l2Absent := !probe.verified, mode := if probe.verified then u.mode else ObserveMode);
    AskHonest(h, v, SetMode(Auto, AtStartup), env, l);
  }

  /** The healthy-fan theorem. Honest hardware that adopts writes within a settle window and whose
      tachometer lags at any rate above the stall epsilon never gets the daemon into trouble: for
      every start mode, inherited fan state, command sequence, temperature trace and sensor loss,
      at every turn no failure is counted, at most one poll looks stalled, monitor-only stays off,
      the fan is owned exactly when it is in Manual, and every poll so far reported verified. */
  lemma HealthyFan(c: Setup, start: RunMode, h: Hw, env: Env, l: nat, n: nat)
    requires c.Ok() && l < ECHO_SETTLE_SAMPLES
    requires Honest(h, Turn(c, Daemon(c, start, env, n), env).log, l)
    ensures var s := Daemon(c, start, env, n);
            && s.writeFailures == 0 && s.stallPolls <= 1 && !s.monitorOnly && !s.restorePending
            && (s.manualArmed <==> HwOf(h, s.log, l).mode == Manual)
            && (s.lastWritten.Some? ==> HwOf(h, s.log, l).reg == s.lastWritten.value)
            && StepOnce(c, s, env).1.verified
  {
    hide Startup;
    hide Turn;
    hide HwOf;
    hide Honest;
    StartupStaysWell(c, start, h, env, l);
    StartupEstablishes(c, start, env);
    RunStaysWell(c, h, Startup(NewSup(c, start), env), env, l, n);
    DaemonInvariant(c, start, env, n);
    TurnStaysWell(c, h, Daemon(c, start, env, n), env, l);
  }

  // ---- the latency bound is exact ----

  /** Hardware too slow for the settle window: everything else about it is honest. */
  function SlowEnv(): Env {
    k => Answer(true, k != 5, 0, 0, 0, Auto, [Some(50_000)], Absent, Physics(false, false, 100))
  }

  function SlowFan(): Hw { Hw(0, 0, Auto) }

  lemma SlowStartup(c: Setup, l: nat)
    requires c.Ok()
    ensures var s := Startup(NewSup(c, CurveMode), SlowEnv());
            && s == NewSup(c, CurveMode).(log := s.log) && |s.log| == 2
            && Honest(SlowFan(), s.log, l) && HwOf(SlowFan(), s.log, l) == SlowFan()
  {
    hide HwOf;
    hide Honest;
    var env, h := SlowEnv(), SlowFan();
    var s := NewSup(c, CurveMode);
    NothingYet(h, l);
    AskHonest(h, s, ReadFan(AtStartup), env, l);
    var t := Ask(s, ReadFan(AtStartup), env).0;
    AskHonest(h, t, Probe, env, l);
  }

  lemma NothingYet(h: Hw, l: nat)
    ensures Honest(h, [], l) && HwOf(h, [], l) == h
  {}

  lemma SlowDecide(c: Setup, s: Sup, l: nat)
    requires c.Ok() && |s.log| == 4 && !s.monitorOnly && s.mode == CurveMode && s.track == Start(c.curve)
    requires Honest(SlowFan(), s.log, l) && HwOf(SlowFan(), s.log, l) == SlowFan()
    ensures var (t, d) := Decide(c, s, SlowEnv());
            && d.SetSpeed? && t == s.(track := t.track, log := t.log) && |t.log| == 5
            && Honest(SlowFan(), t.log, l) && HwOf(SlowFan(), t.log, l) == SlowFan()
  {
    hide HwOf;
    hide Honest;
    AskHonest(SlowFan(), s, ReadSensors, SlowEnv(), l);
    assert ScreenAll(SlowEnv()(4).readings) == [Some(50_000)];
    assert [Some(50_000)][..0] == [];
    assert Hottest([Some(50_000)]) == Some(50_000);
  }

  lemma SlowAct(c: Setup, s: Sup, d: Decision, l: nat)
    requires c.Ok() && |s.log| == 5 && d.SetSpeed? && !s.monitorOnly && !s.manualArmed && s.writeFailures == 0
    requires l >= ECHO_SETTLE_SAMPLES
    requires Honest(SlowFan(), s.log, l) && HwOf(SlowFan(), s.log, l) == SlowFan()
    ensures var (t, applied) := Act(c, s, d, SlowEnv());
            && t == s.(writeFailures := 1, log := t.log) && |t.log| == 6
            && Honest(SlowFan(), t.log, l) && HwOf(SlowFan(), t.log, l) == SlowFan()
  {
    hide HwOf;
    hide Honest;
    AskHonest(SlowFan(), s, SetMode(Manual, AtAct), SlowEnv(), l);
  }

  lemma SlowL1(c: Setup, s: Sup, applied: Option<nat>, l: nat)
    requires c.Ok() && |s.log| == 6 && !s.manualArmed
    requires Honest(SlowFan(), s.log, l) && HwOf(SlowFan(), s.log, l) == SlowFan()
    ensures var t := L1Poll(c, s, applied, SlowEnv()).0;
            t.writeFailures == s.writeFailures && Honest(SlowFan(), t.log, l)
  {
    hide HwOf;
    hide Honest;
    AskHonest(SlowFan(), s, ReadFan(AtL1), SlowEnv(), l);
  }

  lemma SlowHardwareFails(c: Setup, l: nat)
    requires c.Ok() && l >= ECHO_SETTLE_SAMPLES
    ensures var t := Daemon(c, CurveMode, SlowEnv(), 1);
            Honest(SlowFan(), t.log, l) && t.writeFailures == 1
  {
    var env, h := SlowEnv(), SlowFan();
    SlowStartup(c, l);
    hide Startup;
    hide HwOf;
    hide Honest;
    var s := Startup(NewSup(c, CurveMode), env);
    AskHonest(h, s, Ping, env, l);
    AskHonest(h, Note(s, Ping, env), ReadCmd, env, l);
    var p := Prepare(s, env);
    assert p == s.(log := p.log) && |p.log| == 4;
    hide Prepare;
    SlowDecide(c, p, l);
    hide Decide;
    var (t, d) := Decide(c, p, env);
    SlowAct(c, t, d, l);
    hide Act;
    var (u, applied) := Act(c, t, d, env);
    SlowL1(c, u, applied, l);
    hide L1Poll;
    AskHonest(h, L1Poll(c, u, applied, env).0, Ping, env, l);
    AskHonest(h, StepOnce(c, s, env).0, Nap(c.intervalS * 1000), env, l);
    assert Daemon(c, CurveMode, env, 1) == Turn(c, Daemon(c, CurveMode, env, 0), env);
  }

  /** Honest hardware is never blamed, in any run, if and only if its echo latency is below the
      number of samples in a settle window. */
  lemma HealthyExactlyWithinTheWindow(c: Setup, l: nat)
    requires c.Ok()
    ensures (forall start: RunMode, h: Hw, env: Env, n: nat ::
               Honest(h, Daemon(c, start, env, n).log, l) ==> Daemon(c, start, env, n).writeFailures == 0)
            <==> l < ECHO_SETTLE_SAMPLES
  {
    hide Daemon;
    hide Honest;
    if l < ECHO_SETTLE_SAMPLES {
      forall start: RunMode, h: Hw, env: Env, n: nat | Honest(h, Daemon(c, start, env, n).log, l)
        ensures Daemon(c, start, env, n).writeFailures == 0
      {
        NoFailureCounted(c, start, h, env, l, n);
      }
    } else {
      SlowHardwareFails(c, l);
    }
  }

  lemma NoFailureCounted(c: Setup, start: RunMode, h: Hw, env: Env, l: nat, n: nat)
    requires c.Ok() && l < ECHO_SETTLE_SAMPLES && Honest(h, Daemon(c, start, env, n).log, l)
    ensures Daemon(c, start, env, n).writeFailures == 0
  {
    hide Startup;
    hide Turn;
    hide HwOf;
    hide Honest;
    StartupStaysWell(c, start, h, env, l);
    StartupEstablishes(c, start, env);
    RunStaysWell(c, h, Startup(NewSup(c, start), env), env, l, n);
  }
}
