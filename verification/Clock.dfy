/** Instants and durations in nanoseconds on one monotone clock. */
module Clock {
  const NANOS_PER_SEC: nat := 1_000_000_000
  const NANOS_PER_MILLI: nat := 1_000_000

  type Instant = int

  /** A duration since an earlier instant, clamped at zero when the instant lies ahead. */
  function Since(now: Instant, at: Instant): nat { if at <= now then now - at else 0 }

  /** Whole seconds, rounded down. */
  function AsSecs(d: nat): nat { d / NANOS_PER_SEC }

  function Secs(s: nat): nat { s * NANOS_PER_SEC }

  function Millis(m: nat): nat { m * NANOS_PER_MILLI }

  lemma AsSecsMonotone(a: nat, b: nat)
    requires a <= b
    ensures AsSecs(a) <= AsSecs(b)
  {}
}
