/** int64 micro-units (treasury/manager.go:1031-1061). */
module Micro {
  import opened Money

  const MICRO_SCALE: int := 1_000_000
  const MAX_MICRO: int := 9_000_000_000_000_000_000

  /** validateMicroRange. toMicro panics exactly where this fails. */
  predicate InRange(amount: real) {
    -MAX_MICRO as real <= amount * MICRO_SCALE as real <= MAX_MICRO as real
  }

  /** IntPart truncates toward zero. */
  function ToMicro(amount: real): (r: int)
    ensures InRange(amount) ==> -MAX_MICRO <= r <= MAX_MICRO
    ensures amount >= 0.0 ==> 0 <= r
  {
    Truncated(amount * MICRO_SCALE as real)
  }

  function FromMicro(v: int): real {
    v as real / MICRO_SCALE as real
  }

  /** Conversion drops what is less than a micro-unit, towards zero. */
  lemma MicroTruncates(amount: real)
    ensures amount >= 0.0 ==> 0.0 <= amount * MICRO_SCALE as real - ToMicro(amount) as real < 1.0
    ensures amount < 0.0 ==> 0.0 <= ToMicro(amount) as real - amount * MICRO_SCALE as real < 1.0
  {
  }

  /** A counter survives a round trip through the store exactly when it is in the admitted range; above it,
      loading the stored position panics. */
  lemma MicroRoundTrip(v: int)
    ensures InRange(FromMicro(v)) <==> -MAX_MICRO <= v <= MAX_MICRO
    ensures ToMicro(FromMicro(v)) == v
  {
    assert FromMicro(v) * MICRO_SCALE as real == v as real;
  }
}
