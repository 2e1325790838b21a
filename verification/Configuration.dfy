/** Configuration validation, and what it buys the rest of the daemon. */
module Configuration {
  import opened Basics
  import opened Limits
  import opened Policy
  import opened PolicyTheorems
  import opened Machine
  import opened Invariants
  import opened Control

  /** The five user keys, as typed by the loader. */
  datatype Config = Config(highC: i32, maxC: i32, minRpm: u32, maxRpm: u32, intervalS: nat)

  datatype Key = KeyHigh | KeyMax | KeyMinRpm | KeyInterval

  datatype Check = Accepted | Invalid(key: Key)

  function CheckStructural(cfg: Config): Check {
    if !(0 <= cfg.maxC <= 95) then Invalid(KeyMax)
    else if !(0 <= cfg.highC <= 95) then Invalid(KeyHigh)
    else if cfg.highC >= cfg.maxC then Invalid(KeyHigh)
    else if cfg.minRpm >= cfg.maxRpm then Invalid(KeyMinRpm)
    else if cfg.intervalS == 0 then Invalid(KeyInterval)
    else if cfg.intervalS > MAX_INTERVAL_S then Invalid(KeyInterval)
    else Accepted
  }

  /** The load-time clamp: the floor up to the hardware's, the ceiling down to it. */
  function ClampedRpm(cfg: Config, hwMin: u32, hwMax: u32): (int, int) {
    (Max(cfg.minRpm, hwMin), Min(cfg.maxRpm, hwMax))
  }

  function Validate(cfg: Config, hwMin: u32, hwMax: u32): Check {
    var structural := CheckStructural(cfg);
    if structural.Invalid? then structural
    else
      var (lo, hi) := ClampedRpm(cfg, hwMin, hwMax);
      if lo >= hi then Invalid(KeyMinRpm) else Accepted
  }

  /** `high - 3`, saturating. */
  function LowC(cfg: Config): int { Max(cfg.highC - 3, I32_MIN) }

  /** What the supervisor is built from; the controller keeps the unclamped band. */
  function SetupOf(cfg: Config, hwMin: u32, hwMax: u32): Setup {
    Setup(Curve(cfg.minRpm, cfg.maxRpm, cfg.highC, cfg.maxC, LowC(cfg)), hwMin, hwMax, cfg.intervalS)
  }

  /** Validation accepts exactly the configurations whose setup is sound and whose band still
      overlaps the hardware's in more than a point. Soundness is the assumption of every theorem
      about the daemon. */
  lemma ValidatedExactlyWhenSound(cfg: Config, hwMin: u32, hwMax: u32)
    ensures Validate(cfg, hwMin, hwMax) == Accepted <==>
            && SetupOf(cfg, hwMin, hwMax).Ok()
            && (exists lo: int, hi: int :: lo < hi && InBoth(cfg, hwMin, hwMax, lo) && InBoth(cfg, hwMin, hwMax, hi))
  {
    var (lo, hi) := ClampedRpm(cfg, hwMin, hwMax);
    if lo < hi {
      assert InBoth(cfg, hwMin, hwMax, lo) && InBoth(cfg, hwMin, hwMax, hi);
    }
  }

  /** A rejected configuration is blamed on a setting that is wrong, the temperatures first: `max`
      outside 0 to 95; `high` not in order below it; an empty speed band, as configured or once the
      hardware has cut it down; an interval outside 1 to 12 seconds. */
  lemma RejectionNamesTheKey(cfg: Config, hwMin: u32, hwMax: u32)
    ensures var verdict := Validate(cfg, hwMin, hwMax);
            var cool := 0 <= cfg.highC < cfg.maxC <= 95;
            && (verdict == Invalid(KeyMax) <==> !(0 <= cfg.maxC <= 95))
            && (verdict == Invalid(KeyHigh) <==> 0 <= cfg.maxC <= 95 && !cool)
            && (verdict == Invalid(KeyInterval) <==> cool && cfg.minRpm < cfg.maxRpm && !(1 <= cfg.intervalS <= 12))
            && (verdict == Invalid(KeyMinRpm) <==>
                  && cool
                  && (cfg.minRpm >= cfg.maxRpm
                      || (1 <= cfg.intervalS <= 12 && !exists lo: int, hi: int ::
                            lo < hi && InBoth(cfg, hwMin, hwMax, lo) && InBoth(cfg, hwMin, hwMax, hi))))
  {
    ValidatedExactlyWhenSound(cfg, hwMin, hwMax);
  }

  /** A speed the configuration and the hardware both allow. */
  predicate InBoth(cfg: Config, hwMin: u32, hwMax: u32, rpm: int) {
    cfg.minRpm <= rpm <= cfg.maxRpm && hwMin <= rpm <= hwMax
  }

  /** Clamping a curve output to the hardware at write time never leaves the band both allow. */
  lemma WrittenSpeedInBoth(cfg: Config, hwMin: u32, hwMax: u32, rpm: int)
    requires Validate(cfg, hwMin, hwMax) == Accepted && cfg.minRpm <= rpm <= cfg.maxRpm
    ensures InBoth(cfg, hwMin, hwMax, Clamp(rpm, hwMin, hwMax))
  {}

  /** The curve is the configured one, not cut down to the hardware: it runs from the configured minimum
      at `high` to the configured maximum at `max`, with the hysteresis floor three degrees below `high`. */
  lemma CurveIsConfigured(cfg: Config, hwMin: u32, hwMax: u32)
    requires Validate(cfg, hwMin, hwMax) == Accepted
    ensures var c := SetupOf(cfg, hwMin, hwMax);
            && c.Ok() && c.curve.lowC + 3 == c.curve.highC == cfg.highC && c.curve.maxC == cfg.maxC
            && LinearTarget(c.curve, cfg.highC * 1000) == cfg.minRpm && LinearTarget(c.curve, cfg.maxC * 1000) == cfg.maxRpm
            && c.intervalS == cfg.intervalS && c.hwMin == hwMin && c.hwMax == hwMax
  {
    var curve := SetupOf(cfg, hwMin, hwMax).curve;
    LinearTargetShape(curve, curve.highC * 1000, curve.maxC * 1000);
  }

  lemma DecidedInBand(c: Setup, s: Sup, env: Env)
    requires c.Ok() && Inv(c, s) && s.mode == CurveMode
    ensures var (t, d) := Decide(c, s, env);
            t.mode == CurveMode && (d.SetSpeed? ==> c.curve.minRpm <= d.rpm <= c.curve.maxRpm)
  {
    DecideKeeps(c, s, env);
  }

  lemma AppliedIsTarget(c: Setup, s: Sup, d: Decision, env: Env)
    requires c.Ok()
    ensures Act(c, s, d, env).1.Some? ==> Act(c, s, d, env).1 == Target(c, d)
  {
    hide FailWrite;
    hide EnterManual;
  }

  /** In every run of the daemon with a validated configuration, a speed that a curve poll reports as
      applied is one that both the configuration and the hardware allow, although the controller
      works on the configured band alone. */
  lemma AppliedInBoth(cfg: Config, hwMin: u32, hwMax: u32, start: RunMode, env: Env, n: nat)
    requires Validate(cfg, hwMin, hwMax) == Accepted
    ensures var c := SetupOf(cfg, hwMin, hwMax);
            && c.Ok()
            && var report := StepOnce(c, Daemon(c, start, env, n), env).1;
               (report.mode == CurveMode && report.applied.Some? ==> InBoth(cfg, hwMin, hwMax, report.applied.value))
  {
    var c := SetupOf(cfg, hwMin, hwMax);
    assert c.Ok();
    var s := Daemon(c, start, env, n);
    DaemonInvariant(c, start, env, n);
    hide Daemon;
    hide Prepare;
    hide Decide;
    hide Act;
    hide L1Poll;
    var p := Prepare(s, env);
    PrepareKeeps(c, s, env);
    DecideFrame(c, p, env);
    var (t, d) := Decide(c, p, env);
    ActFrame(c, t, d, env);
    AppliedIsTarget(c, t, d, env);
    var (u, applied) := Act(c, t, d, env);
    L1Frame(c, u, applied, env);
    if t.mode == CurveMode && applied.Some? {
      DecidedInBand(c, p, env);
      WrittenSpeedInBoth(cfg, hwMin, hwMax, if d.SetSpeed? then d.rpm else cfg.maxRpm);
    }
  }
}
