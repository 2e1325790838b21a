/** The control policy: hysteresis, slew limiting and streak counting over the
    hottest valid sensor. Temperatures are milli-degrees, speeds are rpm. */
module Policy {
  import opened Basics
  import opened Limits

  /** The curve a controller is built from. */
  datatype Curve = Curve(minRpm: nat, maxRpm: nat, highC: int, maxC: int, lowC: int) {
    /** What a validated configuration guarantees about its curve. */
    predicate Ok() {
      && minRpm < maxRpm <= U32_MAX
      && 0 <= highC < maxC <= 95
      && lowC == highC - 3
    }

    /** One degree below `max`: at or above it a poll counts toward the overshoot guard. */
    function GuardMilli(): int { (maxC - 1) * 1000 }
  }

  datatype Decision = Observe | SetSpeed(rpm: nat) | EscalateMax | ReturnToAuto

  /** The mutable half of a controller. */
  datatype Track = Track(
    slew: nat,
    ramping: bool,
    lossStreak: nat,
    hotStreak: nat,
    lastT: Option<int>)

  /** One sensor poll: a failed or rejected sensor reads `None`. */
  type Readings = seq<Option<int>>

  function Start(c: Curve): Track { Track(c.minRpm, false, 0, 0, None) }

  function Hotter(best: Option<int>, m: Option<int>): Option<int> {
    if m.None? then best
    else if best.Some? && best.value >= m.value then best
    else m
  }

  /** The effective temperature: a fold over the valid sensors. */
  function Hottest(readings: Readings): Option<int> {
    if readings == [] then None
    else Hotter(Hottest(readings[..|readings| - 1]), readings[|readings| - 1])
  }

  function Absorb(c: Curve, k: Track, readings: Readings): Track {
    match Hottest(readings)
    case Some(t) =>
      k.(lastT := Some(t), lossStreak := 0,
         hotStreak := if t >= c.GuardMilli() then k.hotStreak + 1 else 0)
    case None =>
      k.(lossStreak := k.lossStreak + 1, hotStreak := 0)
  }

  /** Move `from` at most `maxStep` toward `target`. */
  function SlewToward(from: nat, target: nat, maxStep: nat): nat {
    if target >= from then Min(from + maxStep, target)
    else Max(Max(from - maxStep, 0), target)
  }

  /** Linear interpolation over [high, max), reached only from that branch of `TargetFor`. */
  function LinearTarget(c: Curve, t: int): int
    requires c.Ok()
  {
    var denom := (c.maxC - c.highC) * 1000;
    var num := t - c.highC * 1000;
    TruncDiv(num * (c.maxRpm - c.minRpm), denom) + c.minRpm
  }

  /** The curve's target for `t`, and the hysteresis latch after looking at it. */
  function TargetFor(c: Curve, k: Track, t: int): (int, bool)
    requires c.Ok()
  {
    if t < c.lowC * 1000 then (c.minRpm, false)
    else if t >= c.maxC * 1000 then (c.maxRpm, true)
    else if t >= c.highC * 1000 then (LinearTarget(c, t), true)
    else (if k.ramping then k.slew else c.minRpm, k.ramping)
  }

  lemma LinearTargetInBand(c: Curve, t: int)
    requires c.Ok() && c.highC * 1000 <= t <= c.maxC * 1000
    ensures c.minRpm <= LinearTarget(c, t) <= c.maxRpm
  {
    var num, span, denom := t - c.highC * 1000, c.maxRpm - c.minRpm, (c.maxC - c.highC) * 1000;
    MulMonotone(num, denom, span);
    QuotientBetween(num * span, denom, span);
  }

  lemma MulMonotone(a: int, b: int, m: int)
    requires a <= b && 0 <= m
    ensures a * m <= b * m
    ensures m * a <= m * b
  {}

  lemma QuotientBetween(n: int, d: int, q: int)
    requires d > 0 && 0 <= n <= d * q
    ensures 0 <= n / d <= q
  {
    if n / d > q {
      MulMonotone(q + 1, n / d, d);
      assert false;
    }
  }

  function StepCurve(c: Curve, k: Track, readings: Readings): (Track, Decision)
    requires c.Ok()
  {
    var a := Absorb(c, k, readings);
    match Hottest(readings)
    case Some(t) =>
      if a.hotStreak >= OVERSHOOT_POLLS then
        (a.(slew := c.maxRpm, ramping := true), EscalateMax)
      else
        var (target, ramping) := TargetFor(c, a, t);
        TargetInBand(c, a, t);
        var slew := SlewToward(a.slew, target, SLEW_MAX_RPM_PER_POLL);
        (a.(slew := slew, ramping := ramping), SetSpeed(slew))
    case None =>
      if a.lossStreak >= SENSOR_LOSS_POLLS then
        (a.(lossStreak := 0, hotStreak := 0, slew := c.minRpm, ramping := false), ReturnToAuto)
      else (a, Observe)
  }

  lemma TargetInBand(c: Curve, k: Track, t: int)
    requires c.Ok()
    ensures TargetFor(c, k, t).0 >= 0
    ensures c.minRpm <= k.slew <= c.maxRpm ==> c.minRpm <= TargetFor(c, k, t).0 <= c.maxRpm
  {
    if c.highC * 1000 <= t <= c.maxC * 1000 { LinearTargetInBand(c, t); }
  }

  function StepHold(c: Curve, k: Track, readings: Readings, held: nat): (Track, Decision) {
    var a := Absorb(c, k, readings);
    match Hottest(readings)
    case Some(_) =>
      (a, if a.hotStreak >= OVERSHOOT_POLLS then EscalateMax else SetSpeed(held))
    case None =>
      if a.lossStreak >= SENSOR_LOSS_POLLS then (a.(lossStreak := 0, hotStreak := 0), ReturnToAuto)
      else (a, Observe)
  }

  function StepObserve(c: Curve, k: Track, readings: Readings): (Track, Decision) {
    var a := Absorb(c, k, readings);
    (if Hottest(readings).None? && a.lossStreak >= SENSOR_LOSS_POLLS
     then a.(lossStreak := 0, hotStreak := 0) else a,
     Observe)
  }

  /** The controller object: stepped once per poll, updated in place. */
  class Controller {
    const curve: Curve
    var slewRpm: nat
    var ramping: bool
    var lossStreak: nat
    var overshootStreak: nat
    var lastTEff: Option<int>

    function View(): Track
      reads this
    {
      Track(slewRpm, ramping, lossStreak, overshootStreak, lastTEff)
    }

    constructor (curve: Curve)
      ensures this.curve == curve
      ensures View() == Start(curve)
    {
      this.curve := curve;
      slewRpm, ramping := curve.minRpm, false;
      lossStreak, overshootStreak := 0, 0;
      lastTEff := None;
    }

    method Take(readings: Readings) returns (t: Option<int>)
      modifies this
      ensures t == Hottest(readings)
      ensures View() == Absorb(curve, old(View()), readings)
    {
      t := Hottest(readings);
      if t.Some? {
        lastTEff := t;
        lossStreak := 0;
        OvershootCheck(t.value);
      } else {
        lossStreak := lossStreak + 1;
        overshootStreak := 0;
      }
    }

    method OvershootCheck(t: int)
      modifies this`overshootStreak
      ensures overshootStreak == if t >= curve.GuardMilli() then old(overshootStreak) + 1 else 0
    {
      if t >= (curve.maxC - 1) * 1000 {
        overshootStreak := overshootStreak + 1;
      } else {
        overshootStreak := 0;
      }
    }

    method Target(t: int) returns (target: int)
      requires curve.Ok()
      modifies this`ramping
      ensures (target, ramping) == TargetFor(curve, old(View()), t)
    {
      if t < curve.lowC * 1000 {
        ramping := false;
        target := curve.minRpm;
      } else if t >= curve.maxC * 1000 {
        ramping := true;
        target := curve.maxRpm;
      } else if t >= curve.highC * 1000 {
        ramping := true;
        target := LinearTarget(curve, t);
      } else if ramping {
        target := slewRpm;
      } else {
        target := curve.minRpm;
      }
    }

    method ResetStreaks()
      modifies this`lossStreak, this`overshootStreak
      ensures lossStreak == overshootStreak == 0
    {
      lossStreak, overshootStreak := 0, 0;
    }

    method CurveStep(readings: Readings) returns (d: Decision)
      requires curve.Ok()
      modifies this
      ensures (View(), d) == StepCurve(curve, old(View()), readings)
    {
      var t := Take(readings);
      if t.Some? {
        if overshootStreak >= OVERSHOOT_POLLS {
          slewRpm := curve.maxRpm;
          ramping := true;
          return EscalateMax;
        }
        TargetInBand(curve, View(), t.value);
        var target := Target(t.value);
        slewRpm := SlewToward(slewRpm, target, SLEW_MAX_RPM_PER_POLL);
        return SetSpeed(slewRpm);
      }
      if lossStreak >= SENSOR_LOSS_POLLS {
        ResetStreaks();
        slewRpm := curve.minRpm;
        ramping := false;
        return ReturnToAuto;
      }
      return Observe;
    }

    method HoldStep(readings: Readings, held: nat) returns (d: Decision)
      modifies this
      ensures (View(), d) == StepHold(curve, old(View()), readings, held)
    {
      var t := Take(readings);
      if t.Some? {
        if overshootStreak >= OVERSHOOT_POLLS {
          return EscalateMax;
        }
        return SetSpeed(held);
      }
      if lossStreak >= SENSOR_LOSS_POLLS {
        ResetStreaks();
        return ReturnToAuto;
      }
      return Observe;
    }

    method ObserveStep(readings: Readings) returns (d: Decision)
      modifies this
      ensures (View(), d) == StepObserve(curve, old(View()), readings)
    {
      var t := Take(readings);
      if t.None? && lossStreak >= SENSOR_LOSS_POLLS {
        ResetStreaks();
      }
      return Observe;
    }
  }
}
