/** Small vocabulary shared by every module: options, machine ranges and the
    integer helpers the daemon takes from Rust's standard library. */
module Basics {
  datatype Option<+T> = None | Some(value: T)

  const U32_MAX: int := 0xFFFF_FFFF
  const I32_MIN: int := -0x8000_0000
  const I32_MAX: int := 0x7FFF_FFFF
  const I64_MAX: int := 0x7FFF_FFFF_FFFF_FFFF

  type u32 = x: int | 0 <= x <= U32_MAX
  type i32 = x: int | I32_MIN <= x <= I32_MAX

  function Min(a: int, b: int): int { if a <= b then a else b }

  function Max(a: int, b: int): int { if a >= b then a else b }

  /** `Ord::clamp`, which panics on an empty range: the value of the range nearest to `x`. */
  function Clamp(x: int, lo: int, hi: int): (r: int)
    requires lo <= hi
    ensures lo <= r <= hi && (lo <= x <= hi ==> r == x)
    ensures (r < x ==> r == hi) && (r > x ==> r == lo)
  {
    if x < lo then lo else if x > hi then hi else x
  }

  /** `u32::abs_diff`. */
  function AbsDiff(a: int, b: int): nat { if a >= b then a - b else b - a }

  /** A distance of at most `k` is an interval of radius `k`. */
  lemma WithinDistance(a: int, b: int, k: int)
    ensures AbsDiff(a, b) <= k <==> b - k <= a <= b + k
  {}

  /** Rust's integer division: it truncates toward zero, where Dafny's is Euclidean. */
  function TruncDiv(n: int, d: int): int
    requires d > 0
  {
    if n >= 0 then n / d else -((-n) / d)
  }
}

/** The safety tunables, compiled in and never configurable. */
module Limits {
  const SLEW_MAX_RPM_PER_POLL: nat := 750
  const SENSOR_LOSS_POLLS: nat := 3
  const OVERSHOOT_POLLS: nat := 3
  const WRITE_ECHO_TOLERANCE_RPM: nat := 50
  const ECHO_SETTLE_MS: nat := 1500
  const ECHO_SETTLE_SAMPLES: nat := 10
  const MODE_SETTLE_MS: nat := 1000
  const WRITE_RETRY_MAX: nat := 1
  const STALL_POLLS: nat := 10
  const VERIFY_TOLERANCE_RPM: nat := 150
  const WRITE_FAIL_FALLBACK: nat := 3
  const STALL_TACH_EPSILON_RPM: nat := 50
  const WATCHDOG_UNIT_SEC: nat := 15
  const MAX_INTERVAL_S: nat := 12
  const MILLI_C_MIN: int := 0
  const MILLI_C_MAX: int := 120_000

  /** The values the daemon is compiled with. */
  lemma CompiledIn()
    ensures SLEW_MAX_RPM_PER_POLL == 750 && SENSOR_LOSS_POLLS == 3 && OVERSHOOT_POLLS == 3
    ensures WRITE_ECHO_TOLERANCE_RPM == 50 && ECHO_SETTLE_MS == 1500 && ECHO_SETTLE_SAMPLES == 10
    ensures MODE_SETTLE_MS == 1000 && WRITE_RETRY_MAX == 1
    ensures STALL_POLLS == 10 && VERIFY_TOLERANCE_RPM == 150 && WRITE_FAIL_FALLBACK == 3 && STALL_TACH_EPSILON_RPM == 50
    ensures WATCHDOG_UNIT_SEC == 15 && MAX_INTERVAL_S == 12
    ensures MILLI_C_MIN == 0 && MILLI_C_MAX == 120_000
  {}
}
