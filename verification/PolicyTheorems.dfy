/** What the control policy does over whole histories: exact streaks, exact
    convergence, monotonicity between two runs, and machine arithmetic. */
module PolicyTheorems {
  import opened Basics
  import opened Limits
  import opened Policy

  // ---- the effective temperature ----

  /** The hottest reading really is one of the valid readings and no valid one is hotter. */
  lemma {:induction false} HottestIsMaximum(r: Readings)
    ensures Hottest(r).None? <==> forall i :: 0 <= i < |r| ==> r[i].None?
    ensures Hottest(r).Some? ==> Hottest(r) in r
    ensures forall i :: 0 <= i < |r| && r[i].Some? ==> Hottest(r).Some? && r[i].value <= Hottest(r).value
  {
    if r != [] {
      var p := r[..|r| - 1];
      HottestIsMaximum(p);
      assert forall i :: 0 <= i < |p| ==> r[i] == p[i];
      if Hottest(p).None? {
        assert forall i :: 0 <= i < |p| ==> r[i].None?;
      }
      assert Hottest(p).Some? ==> Hottest(p) in r;
      assert Hottest(r) == Hotter(Hottest(p), r[|r| - 1]);
      if Hottest(r).None? {
        assert r[|r| - 1].None?;
      }
    }
  }

  // ---- histories ----

  /** How one poll drives the controller: the supervisor picks the kind by mode. */
  datatype Kind = InCurve | InHold(rpm: nat) | InObserve
  datatype Poll = Poll(kind: Kind, readings: Readings)

  function StepKind(c: Curve, k: Track, p: Poll): (Track, Decision)
    requires c.Ok()
  {
    match p.kind
    case InCurve => StepCurve(c, k, p.readings)
    case InHold(rpm) => StepHold(c, k, p.readings, rpm)
    case InObserve => StepObserve(c, k, p.readings)
  }

  /** The controller after a whole history, oldest poll first. */
  function Replay(c: Curve, h: seq<Poll>): Track
    requires c.Ok()
  {
    if h == [] then Start(c) else StepKind(c, Replay(c, h[..|h| - 1]), h[|h| - 1]).0
  }

  /** The decision taken on the last poll of a history. */
  function LastDecision(c: Curve, h: seq<Poll>): Decision
    requires c.Ok() && h != []
  {
    StepKind(c, Replay(c, h[..|h| - 1]), h[|h| - 1]).1
  }

  predicate IsHot(c: Curve, p: Poll) { Hottest(p.readings).Some? && Hottest(p.readings).value >= c.GuardMilli() }

  predicate IsLost(p: Poll) { Hottest(p.readings).None? }

  function HotTail(c: Curve, h: seq<Poll>): nat {
    if h == [] || !IsHot(c, h[|h| - 1]) then 0 else 1 + HotTail(c, h[..|h| - 1])
  }

  function LostTail(h: seq<Poll>): nat {
    if h == [] || !IsLost(h[|h| - 1]) then 0 else 1 + LostTail(h[..|h| - 1])
  }

  /** The counters are exactly the current runs of hot and lost polls, and the output stays in band. */
  lemma {:induction false} StreaksAreTails(c: Curve, h: seq<Poll>)
    requires c.Ok()
    ensures Replay(c, h).hotStreak == HotTail(c, h)
    ensures Replay(c, h).lossStreak == LostTail(h) % SENSOR_LOSS_POLLS
    ensures c.minRpm <= Replay(c, h).slew <= c.maxRpm
  {
    if h != [] {
      var p := h[..|h| - 1];
      StreaksAreTails(c, p);
      var last := h[|h| - 1];
      var a := Absorb(c, Replay(c, p), last.readings);
      if Hottest(last.readings).Some? { TargetInBand(c, a, Hottest(last.readings).value); }
    }
  }

  /** A tail of length `n` is the same thing as the last `n` polls all qualifying. */
  lemma {:induction false} HotTailAtLeast(c: Curve, h: seq<Poll>, n: nat)
    ensures HotTail(c, h) >= n <==> |h| >= n && forall i :: |h| - n <= i < |h| ==> IsHot(c, h[i])
  {
    if n > 0 && h != [] {
      var p := h[..|h| - 1];
      HotTailAtLeast(c, p, n - 1);
      assert forall i :: 0 <= i < |p| ==> p[i] == h[i];
      if |h| >= n && forall i :: |h| - n <= i < |h| ==> IsHot(c, h[i]) {
        assert IsHot(c, h[|h| - 1]);
        assert forall i :: |p| - (n - 1) <= i < |p| ==> IsHot(c, p[i]);
      }
    }
  }

  lemma EscalatesExactlyOnHotTail(c: Curve, h: seq<Poll>)
    requires c.Ok() && h != []
    ensures LastDecision(c, h) == EscalateMax <==>
            !h[|h| - 1].kind.InObserve? && HotTail(c, h) >= OVERSHOOT_POLLS
  {
    StreaksAreTails(c, h[..|h| - 1]);
  }

  lemma ReturnsExactlyOnLostTail(c: Curve, h: seq<Poll>)
    requires c.Ok() && h != []
    ensures LastDecision(c, h) == ReturnToAuto <==>
            !h[|h| - 1].kind.InObserve? && LostTail(h) > 0 && LostTail(h) % SENSOR_LOSS_POLLS == 0
  {
    var p, last := h[..|h| - 1], h[|h| - 1];
    StreaksAreTails(c, p);
    ReturnsWhenStreakFills(c, Replay(c, p), last);
    if IsLost(last) { NextMultipleOfThree(LostTail(p)); }
    hide StepKind;
    hide Replay;
  }

  lemma ReturnsWhenStreakFills(c: Curve, k: Track, p: Poll)
    requires c.Ok()
    ensures StepKind(c, k, p).1 == ReturnToAuto <==>
            !p.kind.InObserve? && IsLost(p) && k.lossStreak + 1 >= SENSOR_LOSS_POLLS
  {}

  lemma NextMultipleOfThree(n: nat)
    ensures (n + 1) % SENSOR_LOSS_POLLS == 0 <==> n % SENSOR_LOSS_POLLS + 1 >= SENSOR_LOSS_POLLS
  {}

  /** EscalateMax exactly when at least the last three polls were valid and at or above
      `max - 1`; ReturnToAuto exactly when the current run of lost polls is a positive
      multiple of three. True of every interleaving of curve, hold and observe polls. */
  lemma ExactStreaks(c: Curve, h: seq<Poll>)
    requires c.Ok() && h != []
    ensures LastDecision(c, h) == EscalateMax <==>
            !h[|h| - 1].kind.InObserve? && |h| >= OVERSHOOT_POLLS &&
            forall i :: |h| - OVERSHOOT_POLLS <= i < |h| ==> IsHot(c, h[i])
    ensures LastDecision(c, h) == ReturnToAuto <==>
            !h[|h| - 1].kind.InObserve? && LostTail(h) > 0 && LostTail(h) % SENSOR_LOSS_POLLS == 0
  {
    EscalatesExactlyOnHotTail(c, h);
    ReturnsExactlyOnLostTail(c, h);
    HotTailAtLeast(c, h, OVERSHOOT_POLLS);
  }

  /** A lost run that is no multiple of three commands nothing, in every mode. */
  lemma InterimLossWritesNothing(c: Curve, h: seq<Poll>)
    requires c.Ok() && h != [] && IsLost(h[|h| - 1]) && LostTail(h) % SENSOR_LOSS_POLLS != 0
    ensures LastDecision(c, h) == Decision.Observe
    ensures Replay(c, h).slew == Replay(c, h[..|h| - 1]).slew
  {
    StreaksAreTails(c, h[..|h| - 1]);
    NextMultipleOfThree(LostTail(h[..|h| - 1]));
    InterimLossStep(c, Replay(c, h[..|h| - 1]), h[|h| - 1]);
    hide StepKind;
  }

  lemma InterimLossStep(c: Curve, k: Track, p: Poll)
    requires c.Ok() && IsLost(p) && k.lossStreak + 1 < SENSOR_LOSS_POLLS
    ensures StepKind(c, k, p).1 == Decision.Observe && StepKind(c, k, p).0.slew == k.slew
  {}

  // ---- slew limiting ----

  // ---- what each poll decides ----

  /** Every decision of every history. A poll commands a speed exactly when it is valid, in curve or
      hold, and not the third hot one in a row; a hold poll then commands the held speed. It commands
      nothing in observe, or when it is lost and the lost run is no multiple of three. */
  lemma DecisionIsExact(c: Curve, h: seq<Poll>)
    requires c.Ok() && h != []
    ensures var d, p := LastDecision(c, h), h[|h| - 1];
            && (d.SetSpeed? <==> !p.kind.InObserve? && !IsLost(p) && HotTail(c, h) < OVERSHOOT_POLLS)
            && (d.SetSpeed? && p.kind.InHold? ==> d.rpm == p.kind.rpm)
            && (d == Decision.Observe <==>
                  p.kind.InObserve? || (IsLost(p) && LostTail(h) % SENSOR_LOSS_POLLS != 0))
  {
    EscalatesExactlyOnHotTail(c, h);
    ReturnsExactlyOnLostTail(c, h);
    StreaksAreTails(c, h[..|h| - 1]);
  }

  /** The temperature on record after a history: that of its last valid poll. */
  lemma {:induction false} LastSeen(c: Curve, h: seq<Poll>)
    requires c.Ok()
    ensures Replay(c, h).lastT ==
            if h == [] then None
            else if IsLost(h[|h| - 1]) then Replay(c, h[..|h| - 1]).lastT
            else Hottest(h[|h| - 1].readings)
  {}

  /** A curve poll that starts or keeps the ramp: at or above `high`. */
  predicate Climbs(c: Curve, h: seq<Poll>) {
    h != [] && var p := h[|h| - 1]; p.kind.InCurve? && !IsLost(p) && Hottest(p.readings).value >= c.highC * 1000
  }

  /** A curve poll that ends it: below `low`, or the one that returns the fan. */
  predicate Drops(c: Curve, h: seq<Poll>) {
    h != [] &&
    var p := h[|h| - 1];
    && p.kind.InCurve?
    && if IsLost(p) then LostTail(h) % SENSOR_LOSS_POLLS == 0 else Hottest(p.readings).value < c.lowC * 1000
  }

  predicate DropsAt(c: Curve, h: seq<Poll>, j: int) { 0 <= j < |h| && Drops(c, h[..j + 1]) }

  /** Poll `i` started or kept the ramp and none since ended it. */
  ghost predicate RampedSince(c: Curve, h: seq<Poll>, i: nat) {
    i < |h| && Climbs(c, h[..i + 1]) && forall j :: i < j < |h| ==> !DropsAt(c, h, j)
  }

  lemma LatchStep(c: Curve, h: seq<Poll>)
    requires c.Ok() && h != []
    ensures Replay(c, h).ramping <==> Climbs(c, h) || (Replay(c, h[..|h| - 1]).ramping && !Drops(c, h))
    ensures !(Climbs(c, h) && Drops(c, h))
  {
    var p, last := h[..|h| - 1], h[|h| - 1];
    StreaksAreTails(c, p);
    if IsLost(last) { NextMultipleOfThree(LostTail(p)); }
  }

  lemma RampedOneMore(c: Curve, h: seq<Poll>, i: nat)
    requires h != [] && i < |h| - 1
    ensures RampedSince(c, h, i) <==> RampedSince(c, h[..|h| - 1], i) && !Drops(c, h)
  {
    hide Climbs;
    hide Drops;
    var p, n := h[..|h| - 1], |h| - 1;
    assert h[..n + 1] == h && p[..i + 1] == h[..i + 1];
    assert DropsAt(c, h, n) <==> Drops(c, h);
    forall j: int | i < j < n
      ensures DropsAt(c, p, j) <==> DropsAt(c, h, j)
    {
      assert p[..j + 1] == h[..j + 1];
    }
  }

  /** The hysteresis latch, over every history: ramping exactly when some curve poll reached `high`
      and no curve poll since fell below `low` or returned the fan. Hold, observe and interim losses
      leave it alone. */
  lemma {:induction false} RampingExactly(c: Curve, h: seq<Poll>)
    requires c.Ok()
    ensures Replay(c, h).ramping <==> exists i: nat :: RampedSince(c, h, i)
  {
    if h != [] {
      var p, n := h[..|h| - 1], |h| - 1;
      RampingExactly(c, p);
      LatchStep(c, h);
      hide Replay;
      hide Climbs;
      hide Drops;
      assert h[..n + 1] == h;
      forall i: nat | RampedSince(c, h, i)
        ensures Replay(c, h).ramping
      {
        if i < n { RampedOneMore(c, h, i); }
      }
      if Climbs(c, h) {
        assert RampedSince(c, h, n);
      } else if Replay(c, h).ramping {
        var i: nat :| RampedSince(c, p, i);
        RampedOneMore(c, h, i);
      }
    }
  }

  /** The speed the curve wants at `t`: the minimum below `low`, the maximum from `max`, in
      proportion between `high` and `max`; in the hysteresis band, the present speed while ramping
      and the minimum otherwise. */
  predicate IsCurveTarget(c: Curve, t: int, was: int, ramping: bool, target: int) {
    && (t < c.lowC * 1000 ==> target == c.minRpm)
    && (t >= c.maxC * 1000 ==> target == c.maxRpm)
    && (c.highC * 1000 <= t < c.maxC * 1000 ==> InProportion(c, t, target))
    && (c.lowC * 1000 <= t < c.highC * 1000 ==> target == if ramping then was else c.minRpm)
  }

  /** `target` divides the speed band as `t` divides the temperature band, rounded down. */
  predicate InProportion(c: Curve, t: int, target: int) {
    var up, denom, area := target - c.minRpm, (c.maxC - c.highC) * 1000, (t - c.highC * 1000) * (c.maxRpm - c.minRpm);
    up * denom <= area < (up + 1) * denom
  }

  lemma LinearTargetInProportion(c: Curve, t: int)
    requires c.Ok() && c.highC * 1000 <= t <= c.maxC * 1000
    ensures InProportion(c, t, LinearTarget(c, t))
  {
    var denom, area := (c.maxC - c.highC) * 1000, (t - c.highC * 1000) * (c.maxRpm - c.minRpm);
    MulMonotone(0, t - c.highC * 1000, c.maxRpm - c.minRpm);
    assert area == denom * (area / denom) + area % denom;
    assert (area / denom + 1) * denom == denom * (area / denom) + denom;
  }

  /** `now` is the point within one slew step of `was` that is nearest to `target`. */
  predicate SlewsTo(was: int, target: int, now: int) {
    if AbsDiff(was, target) <= 750 then now == target
    else now == if target > was then was + 750 else was - 750
  }

  /** The output of the curve, over every history: a valid curve poll short of escalation moves the
      speed toward the curve's target, by at most 750 rpm. */
  lemma CurveOutputIsExact(c: Curve, h: seq<Poll>)
    requires c.Ok() && h != []
    requires var p := h[|h| - 1]; p.kind.InCurve? && !IsLost(p) && HotTail(c, h) < OVERSHOOT_POLLS
    ensures var was, t := Replay(c, h[..|h| - 1]), Hottest(h[|h| - 1].readings).value;
            exists target: int :: IsCurveTarget(c, t, was.slew, was.ramping, target) && SlewsTo(was.slew, target, Replay(c, h).slew)
  {
    var p, t := h[..|h| - 1], Hottest(h[|h| - 1].readings).value;
    StreaksAreTails(c, p);
    var was := Replay(c, p);
    var a := Absorb(c, was, h[|h| - 1].readings);
    var target := TargetFor(c, a, t).0;
    TargetInBand(c, a, t);
    if c.highC * 1000 <= t < c.maxC * 1000 { LinearTargetInProportion(c, t); }
    hide InProportion;
    hide LinearTarget;
    assert IsCurveTarget(c, t, was.slew, was.ramping, target);
    assert SlewsTo(was.slew, target, Replay(c, h).slew);
  }

  /** How the output moves, over every history: by at most the slew step, except that escalation
      jumps to the maximum and a return to the firmware resets to the minimum, both in curve mode
      only. A commanded curve speed is the output itself; hold, observe and interim losses leave it. */
  lemma OutputMoves(c: Curve, h: seq<Poll>)
    requires c.Ok() && h != []
    ensures var was, now := Replay(c, h[..|h| - 1]).slew, Replay(c, h).slew;
            var d, curve := LastDecision(c, h), h[|h| - 1].kind.InCurve?;
            && (d != EscalateMax && d != ReturnToAuto ==> AbsDiff(now, was) <= SLEW_MAX_RPM_PER_POLL)
            && (curve && d.SetSpeed? ==> d.rpm == now)
            && (curve && d == EscalateMax ==> now == c.maxRpm)
            && (curve && d == ReturnToAuto ==> now == c.minRpm)
            && (!curve || d == Decision.Observe ==> now == was)
            && c.minRpm <= now <= c.maxRpm
  {
    StreaksAreTails(c, h);
  }

  lemma SlewMonotone(f1: nat, t1: nat, f2: nat, t2: nat, m: nat)
    requires f1 <= f2 && t1 <= t2
    ensures SlewToward(f1, t1, m) <= SlewToward(f2, t2, m)
  {}

  // ---- convergence at a constant temperature ----

  /** `n` curve polls, all with the same readings. */
  function Hold(c: Curve, k: Track, r: Readings, n: nat): Track
    requires c.Ok()
  {
    if n == 0 then k else StepCurve(c, Hold(c, k, r, n - 1), r).0
  }

  /** Temperatures whose target does not look at history: below `low`, or from `high` up to the guard. */
  predicate Settling(c: Curve, t: int) {
    t < c.lowC * 1000 || c.highC * 1000 <= t < c.GuardMilli()
  }

  /** The limit: a function of the temperature alone. */
  function Limit(c: Curve, t: int): int
    requires c.Ok()
  {
    if t < c.lowC * 1000 then c.minRpm else LinearTarget(c, t)
  }

  /** At a settling temperature the distance to the limit shrinks by exactly the slew step
      per poll and then stays zero, whatever state the controller started from. */
  lemma {:induction false} CurveConvergence(c: Curve, k: Track, r: Readings, n: nat)
    requires c.Ok() && c.minRpm <= k.slew <= c.maxRpm
    requires Hottest(r).Some? && Settling(c, Hottest(r).value)
    ensures AbsDiff(Hold(c, k, r, n).slew, Limit(c, Hottest(r).value))
         == Max(0, AbsDiff(k.slew, Limit(c, Hottest(r).value)) - SLEW_MAX_RPM_PER_POLL * n)
    ensures c.minRpm <= Hold(c, k, r, n).slew <= c.maxRpm
    ensures IsCurveTarget(c, Hottest(r).value, k.slew, k.ramping, Limit(c, Hottest(r).value))
  {
    var t := Hottest(r).value;
    if t >= c.highC * 1000 {
      LinearTargetInBand(c, t);
      LinearTargetInProportion(c, t);
    }
    hide InProportion;
    if n > 0 { CurveConvergence(c, k, r, n - 1); }
  }

  /** Two controllers with different pasts agree once both have had time to converge. */
  lemma HistoryIsForgotten(c: Curve, k1: Track, k2: Track, r: Readings, n: nat)
    requires c.Ok() && c.minRpm <= k1.slew <= c.maxRpm && c.minRpm <= k2.slew <= c.maxRpm
    requires Hottest(r).Some? && Settling(c, Hottest(r).value)
    requires SLEW_MAX_RPM_PER_POLL * n >= c.maxRpm - c.minRpm
    ensures Hold(c, k1, r, n).slew == Hold(c, k2, r, n).slew == Limit(c, Hottest(r).value)
  {
    CurveConvergence(c, k1, r, n);
    CurveConvergence(c, k2, r, n);
    if Hottest(r).value >= c.highC * 1000 { LinearTargetInBand(c, Hottest(r).value); }
  }

  // ---- the curve itself ----

  /** Exact at both ends and monotone between them. */
  lemma LinearTargetShape(c: Curve, t1: int, t2: int)
    requires c.Ok() && c.highC * 1000 <= t1 <= t2 <= c.maxC * 1000
    ensures LinearTarget(c, c.highC * 1000) == c.minRpm
    ensures LinearTarget(c, c.maxC * 1000) == c.maxRpm
    ensures LinearTarget(c, t1) <= LinearTarget(c, t2)
    ensures InProportion(c, t1, LinearTarget(c, t1))
  {
    var denom, span := (c.maxC - c.highC) * 1000, c.maxRpm - c.minRpm;
    var n1, n2 := t1 - c.highC * 1000, t2 - c.highC * 1000;
    MulMonotone(n1, n2, span);
    MulMonotone(0, n1, span);
    LinearTargetInProportion(c, t1);
    QuotientMonotone(n1 * span, n2 * span, denom);
    QuotientExact(span, denom);
  }

  lemma QuotientMonotone(a: int, b: int, d: int)
    requires d > 0 && 0 <= a <= b
    ensures a / d <= b / d
  {
    if a / d > b / d {
      MulMonotone(b / d + 1, a / d, d);
      assert false;
    }
  }

  lemma QuotientExact(q: int, d: int)
    requires d > 0 && q >= 0
    ensures d * q / d == q
  {
    var n := d * q;
    QuotientBetween(n, d, q);
    if n / d < q {
      MulMonotone(n / d + 1, q, d);
      assert false;
    }
  }

  // ---- hotter is never slower ----

  /** The speed a decision stands for; escalation reads as the configured maximum. */
  function Output(c: Curve, d: Decision): Option<nat> {
    match d
    case SetSpeed(rpm) => Some(rpm)
    case EscalateMax => Some(c.maxRpm)
    case Observe => None
    case ReturnToAuto => None
  }

  /** Temperatures at which the hysteresis latch decides the target. */
  predicate MidZone(c: Curve, t: int) { c.lowC * 1000 <= t < c.highC * 1000 }

  /** Curve polls from `k`, oldest first. */
  function CurveRun(c: Curve, k: Track, trace: seq<Readings>): Track
    requires c.Ok()
  {
    if trace == [] then k else StepCurve(c, CurveRun(c, k, trace[..|trace| - 1]), trace[|trace| - 1]).0
  }

  function CurveOutput(c: Curve, k: Track, trace: seq<Readings>): Option<nat>
    requires c.Ok() && trace != []
  {
    Output(c, StepCurve(c, CurveRun(c, k, trace[..|trace| - 1]), trace[|trace| - 1]).1)
  }

  /** The same polls are lost in both traces, and where both are valid `a` is no hotter. */
  predicate NoHotter(a: Readings, b: Readings) {
    && (Hottest(a).None? <==> Hottest(b).None?)
    && (Hottest(a).Some? ==> Hottest(a).value <= Hottest(b).value)
  }

  predicate AvoidsMidZone(c: Curve, a: Readings) { Hottest(a).Some? ==> !MidZone(c, Hottest(a).value) }

  predicate Behind(c: Curve, ka: Track, kb: Track) {
    && c.minRpm <= ka.slew <= kb.slew <= c.maxRpm
    && ka.hotStreak <= kb.hotStreak
    && ka.lossStreak == kb.lossStreak
    && (ka.ramping ==> kb.ramping)
  }

  lemma BehindStep(c: Curve, ka: Track, kb: Track, a: Readings, b: Readings)
    requires c.Ok() && Behind(c, ka, kb) && NoHotter(a, b) && AvoidsMidZone(c, a)
    ensures Behind(c, StepCurve(c, ka, a).0, StepCurve(c, kb, b).0)
    ensures var x, y := Output(c, StepCurve(c, ka, a).1), Output(c, StepCurve(c, kb, b).1);
            (x.Some? <==> y.Some?) && (x.Some? ==> x.value <= y.value)
  {
    if Hottest(a).Some? {
      var ta, tb := Hottest(a).value, Hottest(b).value;
      var aa, ab := Absorb(c, ka, a), Absorb(c, kb, b);
      TargetInBand(c, aa, ta);
      TargetInBand(c, ab, tb);
      if c.highC * 1000 <= ta && tb <= c.maxC * 1000 { LinearTargetShape(c, ta, tb); }
      assert TargetFor(c, aa, ta).0 <= TargetFor(c, ab, tb).0;
      SlewMonotone(aa.slew, TargetFor(c, aa, ta).0, ab.slew, TargetFor(c, ab, tb).0, SLEW_MAX_RPM_PER_POLL);
    }
  }

  lemma {:induction false} BehindRun(c: Curve, k: Track, a: seq<Readings>, b: seq<Readings>)
    requires c.Ok() && c.minRpm <= k.slew <= c.maxRpm && |a| == |b|
    requires forall i :: 0 <= i < |a| ==> NoHotter(a[i], b[i]) && AvoidsMidZone(c, a[i])
    ensures Behind(c, CurveRun(c, k, a), CurveRun(c, k, b))
  {
    if a != [] {
      var n := |a| - 1;
      BehindRun(c, k, a[..n], b[..n]);
      BehindStep(c, CurveRun(c, k, a[..n]), CurveRun(c, k, b[..n]), a[n], b[n]);
    }
  }

  /** Hotter is never slower: from one state, a trace that is pointwise no hotter and stays
      out of the hysteresis band never gets a higher output than the hotter trace. */
  lemma HotterIsNeverSlower(c: Curve, k: Track, a: seq<Readings>, b: seq<Readings>)
    requires c.Ok() && c.minRpm <= k.slew <= c.maxRpm && |a| == |b| > 0
    requires forall i :: 0 <= i < |a| ==> NoHotter(a[i], b[i]) && AvoidsMidZone(c, a[i])
    ensures var x, y := CurveOutput(c, k, a), CurveOutput(c, k, b);
            (x.Some? <==> y.Some?) && (x.Some? ==> x.value <= y.value)
  {
    var n := |a| - 1;
    BehindRun(c, k, a[..n], b[..n]);
    BehindStep(c, CurveRun(c, k, a[..n]), CurveRun(c, k, b[..n]), a[n], b[n]);
  }

  /** When exactly one poll breaks the rule. From one and the same state the cooler reading
      gets the strictly higher speed if and only if the controller is ramping, the cooler
      reading sits in the hysteresis band, the hotter one is on the linear part without
      triggering the guard, and that part asks for less than the current output. */
  lemma HotterIsSlowerExactlyWhen(c: Curve, k: Track, a: Readings, b: Readings)
    requires c.Ok() && c.minRpm <= k.slew <= c.maxRpm
    requires Hottest(a).Some? && Hottest(b).Some? && Hottest(a).value <= Hottest(b).value
    ensures Output(c, StepCurve(c, k, a).1).value > Output(c, StepCurve(c, k, b).1).value <==>
            && k.ramping
            && MidZone(c, Hottest(a).value)
            && c.highC * 1000 <= Hottest(b).value < c.maxC * 1000
            && Absorb(c, k, b).hotStreak < OVERSHOOT_POLLS
            && LinearTarget(c, Hottest(b).value) < k.slew
  {
    var ta, tb := Hottest(a).value, Hottest(b).value;
    var aa, ab := Absorb(c, k, a), Absorb(c, k, b);
    TargetInBand(c, aa, ta);
    TargetInBand(c, ab, tb);
    if c.highC * 1000 <= ta && tb <= c.maxC * 1000 { LinearTargetShape(c, ta, tb); }
  }

  /** Three curve polls at 86 degrees. */
  function HotHistory(): seq<Poll> {
    var hot := Poll(InCurve, [Some(86_000)]);
    [hot, hot, hot]
  }

  lemma HottestOfOne(t: int)
    ensures Hottest([Some(t)]) == Some(t)
  {
    var r: Readings := [Some(t)];
    assert r[..0] == [];
    assert Hottest(r) == Hotter(Hottest([]), r[0]);
  }

  lemma HotHistoryEscalates(c: Curve)
    requires c == Curve(1200, 6200, 66, 86, 63)
    ensures Replay(c, HotHistory()) == Track(6200, true, 0, 3, Some(86_000))
  {
    var hot := Poll(InCurve, [Some(86_000)]);
    HottestOfOne(86_000);
    assert [hot][..0] == [];
    assert Replay(c, [hot]) == Track(1950, true, 0, 1, Some(86_000));
    assert [hot, hot][..1] == [hot];
    assert Replay(c, [hot, hot]) == Track(2700, true, 0, 2, Some(86_000));
    assert HotHistory()[..2] == [hot, hot];
  }

  /** A run with the default settings that reverses: after three polls at 86 degrees, a fourth at
      65 keeps 6200 rpm and a fourth at 66 drops to 5450. */
  lemma HotterCanBeSlower()
    ensures var c, h := Curve(1200, 6200, 66, 86, 63), HotHistory();
            && c.Ok()
            && LastDecision(c, h + [Poll(InCurve, [Some(65_000)])]) == SetSpeed(6200)
            && LastDecision(c, h + [Poll(InCurve, [Some(66_000)])]) == SetSpeed(5450)
  {
    var c, h := Curve(1200, 6200, 66, 86, 63), HotHistory();
    HotHistoryEscalates(c);
    HottestOfOne(65_000);
    HottestOfOne(66_000);
    assert (h + [Poll(InCurve, [Some(65_000)])])[..3] == h;
    assert (h + [Poll(InCurve, [Some(66_000)])])[..3] == h;
  }

  // ---- machine arithmetic ----

  /** Every operation a curve poll at `t` performs stays inside its machine type:
      thresholds in `i32`, the interpolation in `i64` and then `u32`, the slew step in `u32`. */
  ghost predicate FitsMachine(c: Curve, k: Track, t: int)
    requires c.Ok()
  {
    var target := TargetFor(c, k, t).0;
    var num, span := t - c.highC * 1000, c.maxRpm - c.minRpm;
    && (forall x :: x in [c.lowC, c.highC, c.maxC, c.maxC - 1] ==> I32_MIN <= x * 1000 <= I32_MAX)
    && (c.highC * 1000 <= t < c.maxC * 1000 ==>
          && 0 <= num * span <= I64_MAX
          && 0 <= TruncDiv(num * span, (c.maxC - c.highC) * 1000) <= U32_MAX
          && LinearTarget(c, t) <= U32_MAX)
    && (target >= k.slew ==> k.slew + SLEW_MAX_RPM_PER_POLL <= U32_MAX)
  }

  lemma FitsWhenBounded(c: Curve, h: seq<Poll>, t: int)
    requires c.Ok() && MILLI_C_MIN <= t <= MILLI_C_MAX
    requires c.maxRpm <= U32_MAX - SLEW_MAX_RPM_PER_POLL
    ensures FitsMachine(c, Replay(c, h), t)
  {
    StreaksAreTails(c, h);
    if c.highC * 1000 <= t < c.maxC * 1000 {
      LinearTargetInBand(c, t);
      var num, span := t - c.highC * 1000, c.maxRpm - c.minRpm;
      MulMonotone(0, num, span);
      MulMonotone(num, 120_000, span);
      MulMonotone(span, U32_MAX, 120_000);
    }
  }

  /** The history that drives an over-large configured maximum into overflow: escalate, lose one poll. */
  function OverflowHistory(c: Curve): seq<Poll> {
    var hot := Poll(InCurve, [Some(c.maxC * 1000)]);
    [hot, hot, hot, Poll(InCurve, [])]
  }

  lemma OverflowHistoryReachesMax(c: Curve)
    requires c.Ok()
    ensures Replay(c, OverflowHistory(c)).slew == c.maxRpm
  {
    var h := OverflowHistory(c);
    var hot := Poll(InCurve, [Some(c.maxC * 1000)]);
    assert hot.readings[..0] == [];
    assert Hottest(hot.readings) == Hotter(Hottest([]), Some(c.maxC * 1000));
    assert h[..3] == [hot, hot, hot];
    assert h[..3][..2] == [hot, hot];
    assert [hot, hot][..1] == [hot];
    StreaksAreTails(c, [hot, hot]);
    assert HotTail(c, [hot, hot]) == 2 by { assert [hot][..0] == []; assert HotTail(c, [hot]) == 1; }
    assert Replay(c, h[..3]).slew == c.maxRpm;
    StreaksAreTails(c, h[..3]);
    assert LostTail(h[..3]) == 0;
  }

  /** No reachable curve poll overflows if and only if the configured maximum leaves room
      for one slew step below `u32::MAX`. Validation does not check this. */
  lemma CurveArithmeticFits(c: Curve)
    requires c.Ok()
    ensures (forall h: seq<Poll>, t: int :: MILLI_C_MIN <= t <= MILLI_C_MAX ==> FitsMachine(c, Replay(c, h), t))
            <==> c.maxRpm <= U32_MAX - SLEW_MAX_RPM_PER_POLL
  {
    if c.maxRpm <= U32_MAX - SLEW_MAX_RPM_PER_POLL {
      forall h: seq<Poll>, t: int | MILLI_C_MIN <= t <= MILLI_C_MAX
        ensures FitsMachine(c, Replay(c, h), t)
      {
        FitsWhenBounded(c, h, t);
      }
    } else {
      OverflowHistoryReachesMax(c);
      assert !FitsMachine(c, Replay(c, OverflowHistory(c)), c.maxC * 1000);
    }
  }
}
