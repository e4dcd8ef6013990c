/** Q16.16 decibel fields: rounding half away from zero on the way out, an exact quotient on the way in. */
module Decibels {
  import opened Bytes

  const MIN_DB: real := -144.0
  const MAX_DB: real := 12.0
  const UNIT: real := 65536.0

  predicate InVolumeRange(db: real) { MIN_DB <= db <= MAX_DB }

  function RoundAwayFromZero(x: real): int {
    if x >= 0.0 then (x + 0.5).Floor else -((-x + 0.5).Floor)
  }

  function ToQ16(db: real): (q: int)
    requires InVolumeRange(db)
    ensures -144 * 65536 <= q <= 12 * 65536
  {
    RoundAwayFromZero(db * UNIT)
  }

  function FromQ16(q: int): real { q as real / UNIT }

  predicate InQ16Range(q: int) { -144 * 65536 <= q <= 12 * 65536 }

  /** The rounded value is within half a step, 1/131072 dB, of the decibels that were written. */
  lemma RoundingError(db: real)
    requires InVolumeRange(db)
    ensures -1.0 / 131072.0 <= FromQ16(ToQ16(db)) - db <= 1.0 / 131072.0
  {
    var x := db * UNIT;
    var q := ToQ16(db) as real;
    assert -0.5 <= q - x <= 0.5;
    assert FromQ16(ToQ16(db)) - db == (q - x) / UNIT;
  }

  lemma RoundingIsMonotone(low: real, high: real)
    requires InVolumeRange(low) && InVolumeRange(high) && low <= high
    ensures ToQ16(low) <= ToQ16(high)
  {
    assert low * UNIT <= high * UNIT;
  }

  lemma ReadingThenWritingIsExact(q: int)
    requires InQ16Range(q)
    ensures InVolumeRange(FromQ16(q)) && ToQ16(FromQ16(q)) == q
  {
    assert FromQ16(q) * UNIT == q as real;
  }
}
