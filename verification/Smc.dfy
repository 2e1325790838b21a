/** The hardware adapter's write protocol: every write is followed by a settle window of
    bounded read-backs, an expired window re-issues the write once, and only a verified
    read-back commits. */
module Smc {
  import opened Basics
  import opened Limits

  datatype FanMode = Auto | Manual

  /** How one settle window ends: a sample matched, none did, or a read failed. */
  datatype WindowEnd = Matched | Expired | Faulted

  /** How a whole write ends. `VerifyFailed` names the last read-back. */
  datatype WriteEnd = Verified | SyscallFailed | ReadFailed | VerifyFailed(readBack: Option<nat>)

  /** A write's result with what it cost: write calls, read-backs, and cadence steps slept. */
  datatype Outcome = Outcome(end: WriteEnd, writes: nat, readBacks: nat, naps: nat)

  /** A register behind the protocol. The `k`-th read-back is `feed(k)`, `None` being a failed
      or unparseable read; the `k`-th write call succeeds when `syscall(k)`. Nothing else is
      assumed of the hardware. */
  class Port {
    const feed: nat -> Option<nat>
    const syscall: nat -> bool
    var taken: nat
    var writes: nat
    var naps: nat
    const windowMs: nat

    constructor (feed: nat -> Option<nat>, syscall: nat -> bool, windowMs: nat)
      ensures this.feed == feed && this.syscall == syscall && this.windowMs == windowMs
      ensures taken == writes == naps == 0
    {
      this.feed, this.syscall, this.windowMs := feed, syscall, windowMs;
      taken, writes, naps := 0, 0, 0;
    }

    /** Milliseconds slept so far, every nap being one step of the window's cadence. */
    function SleptMs(): nat
      reads this
    {
      naps * StepMs(windowMs)
    }

    method Write() returns (ok: bool)
      modifies this`writes
      ensures writes == old(writes) + 1 && ok == syscall(old(writes))
    {
      ok := syscall(writes);
      writes := writes + 1;
    }

    method ReadBack() returns (r: Option<nat>)
      modifies this`taken
      ensures taken == old(taken) + 1 && r == feed(old(taken))
    {
      r := feed(taken);
      taken := taken + 1;
    }

    method Nap()
      modifies this`naps
      ensures naps == old(naps) + 1
    {
      naps := naps + 1;
    }
  }

  /** The cadence of a window. */
  function StepMs(windowMs: nat): nat { windowMs / ECHO_SETTLE_SAMPLES }

  /** A sample that neither matches nor fails: the window goes on. */
  predicate Quiet(r: Option<nat>, accepted: nat -> bool) { r.Some? && !accepted(r.value) }

  /** Position of the first sample in [from, to) that matches or fails; `to` when all are quiet. */
  function FirstStop(feed: nat -> Option<nat>, accepted: nat -> bool, from: nat, to: nat): (p: nat)
    requires from <= to
    ensures from <= p <= to
    ensures forall j: nat :: from <= j < p ==> feed(j).Some? && !accepted(feed(j).value)
    ensures p < to ==> feed(p).None? || accepted(feed(p).value)
    decreases Max(to - from, 0)
  {
    if from == to || !Quiet(feed(from), accepted) then from
    else FirstStop(feed, accepted, from + 1, to)
  }

  /** How the window that starts at read number `from` ends, and how many samples it takes. */
  function Window(feed: nat -> Option<nat>, accepted: nat -> bool, from: nat): (WindowEnd, nat) {
    var p := FirstStop(feed, accepted, from, from + ECHO_SETTLE_SAMPLES);
    if p == from + ECHO_SETTLE_SAMPLES then (Expired, ECHO_SETTLE_SAMPLES)
    else (if feed(p).None? then Faulted else Matched, p + 1 - from)
  }

  /** One write call and its window, which sleeps before every sample but the first. */
  function Attempt(feed: nat -> Option<nat>, syscall: nat -> bool, accepted: nat -> bool, w: nat, from: nat): Outcome {
    if !syscall(w) then Outcome(SyscallFailed, 1, 0, 0)
    else
      var (end, n) := Window(feed, accepted, from);
      Outcome(
        match end
        case Matched => Verified
        case Faulted => ReadFailed
        case Expired => VerifyFailed(feed(from + n - 1)),
        1, n, n - 1)
  }

  /** A settled write, from write number `w` and read number `from`: an expired window is
      re-issued once, and only an expired window. */
  function SettleOutcome(feed: nat -> Option<nat>, syscall: nat -> bool, accepted: nat -> bool, w: nat, from: nat): Outcome {
    var first := Attempt(feed, syscall, accepted, w, from);
    if !first.end.VerifyFailed? then first
    else
      var second := Attempt(feed, syscall, accepted, w + 1, from + first.readBacks);
      Outcome(second.end, 2, first.readBacks + second.readBacks, first.naps + second.naps)
  }

  /** One settle window: sample on the window's cadence, accept the first match, abort on a failed read. */
  method Settle(port: Port, accepted: nat -> bool) returns (end: WindowEnd, last: Option<nat>)
    modifies port`taken, port`naps
    ensures var (e, n) := Window(port.feed, accepted, old(port.taken));
            && end == e
            && port.taken == old(port.taken) + n
            && port.naps == old(port.naps) + n - 1
            && last == port.feed(port.taken - 1)
  {
    last := None;
    for n := 0 to ECHO_SETTLE_SAMPLES
      invariant port.taken == old(port.taken) + n
      invariant port.naps == old(port.naps) + Max(n - 1, 0)
      invariant n > 0 ==> last == port.feed(port.taken - 1)
      invariant forall j: nat :: old(port.taken) <= j < port.taken ==> Quiet(port.feed(j), accepted)
    {
      if n > 0 {
        port.Nap();
      }
      last := port.ReadBack();
      if last.None? {
        return Faulted, last;
      }
      if accepted(last.value) {
        return Matched, last;
      }
    }
    return Expired, last;
  }

  /** One attempt: the write call, then its settle window. */
  method WriteOnce(port: Port, accepted: nat -> bool) returns (end: WriteEnd)
    modifies port
    ensures var o := Attempt(port.feed, port.syscall, accepted, old(port.writes), old(port.taken));
            && end == o.end
            && port.writes == old(port.writes) + 1
            && port.taken == old(port.taken) + o.readBacks
            && port.naps == old(port.naps) + o.naps
  {
    var ok := port.Write();
    if !ok {
      return SyscallFailed;
    }
    var window, last := Settle(port, accepted);
    match window
    case Matched => return Verified;
    case Faulted => return ReadFailed;
    case Expired => return VerifyFailed(last);
  }

  /** A write, settled: at most `WRITE_RETRY_MAX` re-issues, each after an expired window. */
  method SettleWrite(port: Port, accepted: nat -> bool) returns (end: WriteEnd)
    modifies port
    ensures var o := SettleOutcome(port.feed, port.syscall, accepted, old(port.writes), old(port.taken));
            && end == o.end
            && port.writes == old(port.writes) + o.writes
            && port.taken == old(port.taken) + o.readBacks
            && port.naps == old(port.naps) + o.naps
  {
    end := VerifyFailed(None);
    ghost var first := Attempt(port.feed, port.syscall, accepted, port.writes, port.taken);
    ghost var whole := SettleOutcome(port.feed, port.syscall, accepted, port.writes, port.taken);
    for attempt := 0 to WRITE_RETRY_MAX + 1
      invariant port.writes == old(port.writes) + attempt
      invariant end.VerifyFailed?
      invariant attempt == 0 ==> port.taken == old(port.taken) && port.naps == old(port.naps)
      invariant attempt == 1 ==> end == first.end && port.taken == old(port.taken) + first.readBacks &&
                                 port.naps == old(port.naps) + first.naps
      invariant attempt == 2 ==> end == whole.end && port.taken == old(port.taken) + whole.readBacks &&
                                 port.naps == old(port.naps) + whole.naps && whole.writes == 2
    {
      end := WriteOnce(port, accepted);
      if !end.VerifyFailed? {
        return;
      }
    }
  }

  // ---- what the protocol guarantees ----

  lemma {:induction false} FirstStopSplits(feed: nat -> Option<nat>, accepted: nat -> bool, from: nat, mid: nat, to: nat)
    requires from <= mid <= to
    ensures FirstStop(feed, accepted, from, to) ==
            if FirstStop(feed, accepted, from, mid) < mid then FirstStop(feed, accepted, from, mid)
            else FirstStop(feed, accepted, mid, to)
    decreases Max(mid - from, 0)
  {
    if from < mid && Quiet(feed(from), accepted) { FirstStopSplits(feed, accepted, from + 1, mid, to); }
  }

  /** One attempt, by the first sample of its window that is not quiet. */
  lemma AttemptEnds(feed: nat -> Option<nat>, syscall: nat -> bool, accepted: nat -> bool, w: nat, from: nat)
    ensures var o := Attempt(feed, syscall, accepted, w, from);
            var p := FirstStop(feed, accepted, from, from + ECHO_SETTLE_SAMPLES);
            && o.writes == 1
            && (o.end.Verified? <==> syscall(w) && p < from + ECHO_SETTLE_SAMPLES && feed(p).Some?)
            && (o.end.Verified? ==> accepted(feed(p).value) && o.readBacks == p + 1 - from && o.naps == p - from)
            && (o.end.VerifyFailed? <==> syscall(w) && p == from + ECHO_SETTLE_SAMPLES)
            && (o.end.VerifyFailed? ==>
                  o.end.readBack == feed(p - 1) && o.readBacks == ECHO_SETTLE_SAMPLES && o.naps == ECHO_SETTLE_SAMPLES - 1)
  {}

  /** Success exactly when an accepted sample comes before any fault: the first sample that is
      not quiet matches, lies within two windows, and the write call of its window (and of the
      one before) went through. Then one write was made per window used, one in all if the
      match fell inside the first, and one step was slept per sample but the first of a window. */
  lemma SettleSucceedsExactly(feed: nat -> Option<nat>, syscall: nat -> bool, accepted: nat -> bool, w: nat, from: nat)
    ensures var o := SettleOutcome(feed, syscall, accepted, w, from);
            var n := ECHO_SETTLE_SAMPLES;
            var p := FirstStop(feed, accepted, from, from + n + n);
            && (o.end.Verified? <==>
                  && p < from + n + n && feed(p).Some?
                  && syscall(w) && (p >= from + n ==> syscall(w + 1)))
            && (o.end.Verified? ==>
                  && accepted(feed(p).value)
                  && o.readBacks == p + 1 - from
                  && (p < from + n ==> o.writes == 1 && o.naps == p - from)
                  && (p >= from + n ==> o.writes == 2 && o.naps == p - from - 1))
            && (o.end.VerifyFailed? ==> p == from + n + n && o.end.readBack == feed(p - 1))
  {
    hide Attempt;
    hide FirstStop;
    var n := ECHO_SETTLE_SAMPLES;
    FirstStopSplits(feed, accepted, from, from + n, from + n + n);
    AttemptEnds(feed, syscall, accepted, w, from);
    AttemptEnds(feed, syscall, accepted, w + 1, from + n);
  }

  const MAX_NAPS: nat := (WRITE_RETRY_MAX + 1) * (ECHO_SETTLE_SAMPLES - 1)

  /** The longest a settled write can sleep. */
  function MaxSleepMs(windowMs: nat): nat { MAX_NAPS * StepMs(windowMs) }

  /** Whatever the hardware does, a settled write makes at most two write calls, at most twenty
      read-backs, and sleeps at most nine steps per window. */
  lemma SettleIsBounded(feed: nat -> Option<nat>, syscall: nat -> bool, accepted: nat -> bool, w: nat, from: nat)
    ensures var o := SettleOutcome(feed, syscall, accepted, w, from);
            && 1 <= o.writes <= WRITE_RETRY_MAX + 1
            && o.readBacks <= (WRITE_RETRY_MAX + 1) * ECHO_SETTLE_SAMPLES
            && o.naps <= MAX_NAPS
  {
    var first := Attempt(feed, syscall, accepted, w, from);
    var second := Attempt(feed, syscall, accepted, w + 1, from + first.readBacks);
    assert first.naps <= ECHO_SETTLE_SAMPLES - 1 && second.naps <= ECHO_SETTLE_SAMPLES - 1;
  }

  lemma NapsToMs(before: nat, after: nat, step: nat)
    requires before <= after <= before + MAX_NAPS
    ensures after * step <= before * step + MAX_NAPS * step
  {
    var more := after - before;
    assert after * step == before * step + more * step;
    assert (MAX_NAPS - more) * step >= 0;
  }

  // ---- an honest register ----

  /** The `k`-th read-back of a register that shows `stale` until `latency` samples after a
      write and `adopted` from then on. */
  function HonestEcho(stale: nat, adopted: nat, latency: nat): nat -> Option<nat> {
    k => Some(if k >= latency then adopted else stale)
  }

  /** The same for a register that starts over when the write is re-issued. */
  function RestartingEcho(stale: nat, adopted: nat, latency: nat): nat -> Option<nat> {
    k => Some(if (if k < ECHO_SETTLE_SAMPLES then k else k - ECHO_SETTLE_SAMPLES) >= latency then adopted else stale)
  }

  /** A write whose value is accepted is verified if and only if the register shows it within the
      two windows, and with a single write call if it does so within the first. */
  lemma HonestWriteVerifies(stale: nat, adopted: nat, latency: nat, accepted: nat -> bool)
    requires accepted(adopted)
    ensures var o := SettleOutcome(HonestEcho(stale, adopted, latency), (_: nat) => true, accepted, 0, 0);
            && (o.end.Verified? <==> accepted(stale) || latency < 2 * ECHO_SETTLE_SAMPLES)
            && (o.end.Verified? ==> o.writes == if accepted(stale) || latency < ECHO_SETTLE_SAMPLES then 1 else 2)
  {
    var feed := HonestEcho(stale, adopted, latency);
    SettleSucceedsExactly(feed, (_: nat) => true, accepted, 0, 0);
    if latency < 2 * ECHO_SETTLE_SAMPLES { assert !Quiet(feed(latency), accepted); }
    if accepted(stale) { assert !Quiet(feed(0), accepted); }
  }

  /** With a register that starts over, the second window cannot help. */
  lemma RestartingWriteVerifies(stale: nat, adopted: nat, latency: nat, accepted: nat -> bool)
    requires accepted(adopted)
    ensures var o := SettleOutcome(RestartingEcho(stale, adopted, latency), (_: nat) => true, accepted, 0, 0);
            && (o.end.Verified? <==> accepted(stale) || latency < ECHO_SETTLE_SAMPLES)
            && (o.end.Verified? ==> o.writes == 1)
  {
    var feed := RestartingEcho(stale, adopted, latency);
    SettleSucceedsExactly(feed, (_: nat) => true, accepted, 0, 0);
    if latency < ECHO_SETTLE_SAMPLES { assert !Quiet(feed(latency), accepted); }
    if accepted(stale) { assert !Quiet(feed(0), accepted); }
  }

  // ---- sensors ----

  /** Readings outside 0 to 120 degrees are failed reads. */
  function Screen(raw: Option<int>): Option<int> {
    if raw.Some? && MILLI_C_MIN <= raw.value <= MILLI_C_MAX then raw else None
  }

  function ScreenAll(raw: seq<Option<int>>): (r: seq<Option<int>>)
    ensures |r| == |raw|
    ensures forall i :: 0 <= i < |r| && r[i].Some? ==> r[i] == raw[i] && MILLI_C_MIN <= r[i].value <= MILLI_C_MAX
    ensures forall i :: 0 <= i < |r| ==> (r[i].Some? <==> raw[i].Some? && 0 <= raw[i].value <= 120_000)
  {
    seq(|raw|, i requires 0 <= i < |raw| => Screen(raw[i]))
  }

  // ---- the two settled writes of the sysfs backend ----

  predicate EchoAccepted(target: nat, readBack: nat) { AbsDiff(readBack, target) <= WRITE_ECHO_TOLERANCE_RPM }

  /** An echo within 50 rpm of the target, on either side. */
  lemma EchoAcceptedMeans(target: nat, readBack: nat)
    ensures EchoAccepted(target, readBack) <==> target - 50 <= readBack <= target + 50
  {
    WithinDistance(readBack, target, 50);
  }

  datatype SpeedResult = SpeedOk(rpm: nat) | SpeedErr(why: WriteEnd)
  datatype ModeResult = ModeOk(mode: FanMode) | ModeErr(why: WriteEnd)

  /** Clamp to the hardware band, write, and verify against the register's own echo. */
  method WriteSpeed(port: Port, hwMin: nat, hwMax: nat, rpm: nat) returns (r: SpeedResult)
    requires hwMin <= hwMax && port.windowMs == ECHO_SETTLE_MS
    modifies port
    ensures var target := Clamp(rpm, hwMin, hwMax);
            var o := SettleOutcome(port.feed, port.syscall, (rb: nat) => EchoAccepted(target, rb), old(port.writes), old(port.taken));
            r == if o.end.Verified? then SpeedOk(target) else SpeedErr(o.end)
    ensures r.SpeedOk? ==> port.taken > old(port.taken) && port.feed(port.taken - 1).Some? &&
                           r.rpm - 50 <= port.feed(port.taken - 1).value <= r.rpm + 50
    ensures port.SleptMs() <= old(port.SleptMs()) + MaxSleepMs(ECHO_SETTLE_MS)
  {
    var target := Clamp(rpm, hwMin, hwMax);
    var accepted := (rb: nat) => EchoAccepted(target, rb);
    SettleSucceedsExactly(port.feed, port.syscall, accepted, port.writes, port.taken);
    SettleIsBounded(port.feed, port.syscall, accepted, port.writes, port.taken);
    ghost var before := port.naps;
    var end := SettleWrite(port, accepted);
    NapsToMs(before, port.naps, StepMs(port.windowMs));
    r := if end.Verified? then SpeedOk(target) else SpeedErr(end);
  }

  /** The two attribute generations spell the modes differently; both tokens are single digits. */
  datatype Abi = Legacy | Modern {
    function Token(mode: FanMode): nat {
      if mode == Manual then 1 else if Legacy? then 0 else 2
    }
  }

  /** The tokens of the kernel's two attribute sets. Each set's Auto means something else, or
      nothing, to the other. */
  lemma TokensAreTheKernels(abi: Abi)
    ensures abi.Token(Manual) == 1 && Abi.Legacy.Token(Auto) == 0 && Abi.Modern.Token(Auto) == 2
    ensures abi.Token(Auto) != abi.Token(Manual)
  {}

  /** Write a mode token and insist on reading exactly that token back. */
  method SetMode(port: Port, abi: Abi, mode: FanMode) returns (r: ModeResult)
    requires port.windowMs == MODE_SETTLE_MS
    modifies port
    ensures var o := SettleOutcome(port.feed, port.syscall, (rb: nat) => rb == abi.Token(mode), old(port.writes), old(port.taken));
            r == if o.end.Verified? then ModeOk(mode) else ModeErr(o.end)
    ensures r.ModeOk? ==> port.taken > old(port.taken) && port.feed(port.taken - 1) == Some(abi.Token(mode))
    ensures port.SleptMs() <= old(port.SleptMs()) + MaxSleepMs(MODE_SETTLE_MS)
  {
    var accepted := (rb: nat) => rb == abi.Token(mode);
    SettleSucceedsExactly(port.feed, port.syscall, accepted, port.writes, port.taken);
    SettleIsBounded(port.feed, port.syscall, accepted, port.writes, port.taken);
    ghost var before := port.naps;
    var end := SettleWrite(port, accepted);
    NapsToMs(before, port.naps, StepMs(port.windowMs));
    r := if end.Verified? then ModeOk(mode) else ModeErr(end);
  }

  /** Prove the restore path: one write of the Auto token through the descriptor the death path
      would use, and one window to see it there. Nothing is re-issued: a restore that needs a
      second try is not proven. */
  method ProbeSafeRestore(port: Port, abi: Abi, hasDescriptor: bool) returns (proven: bool)
    requires port.windowMs == MODE_SETTLE_MS
    modifies port
    ensures var p := FirstStop(port.feed, (rb: nat) => rb == abi.Token(Auto), old(port.taken), old(port.taken) + ECHO_SETTLE_SAMPLES);
            && (proven <==>
                  && hasDescriptor && port.syscall(old(port.writes))
                  && p < old(port.taken) + ECHO_SETTLE_SAMPLES && port.feed(p) == Some(abi.Token(Auto)))
            && port.writes == old(port.writes) + if hasDescriptor then 1 else 0
    ensures port.SleptMs() <= old(port.SleptMs()) + MaxSleepMs(MODE_SETTLE_MS)
  {
    if !hasDescriptor {
      return false;
    }
    var accepted := (rb: nat) => rb == abi.Token(Auto);
    ghost var before := port.naps;
    var end := WriteOnce(port, accepted);
    NapsToMs(before, port.naps, StepMs(port.windowMs));
    return end.Verified?;
  }
}
