/** Clock readings: an instant in seconds, and the owner's offset from UTC at that instant. */
module Clock {
  const SECONDS_PER_DAY: real := 86400.0

  datatype Reading = Reading(now: real, offset: real) {
    function UtcDay(): int {
      (now / SECONDS_PER_DAY).Floor
    }

    /** Seconds since UTC midnight. */
    function UtcTime(): real {
      now - UtcDay() as real * SECONDS_PER_DAY
    }

    /** The owner's calendar day: what `astimezone().date()` distinguishes. */
    function LocalDay(): int {
      ((now + offset) / SECONDS_PER_DAY).Floor
    }

    function LocalTime(): real {
      now + offset - LocalDay() as real * SECONDS_PER_DAY
    }
  }

  lemma UtcDayGrows(a: Reading, b: Reading)
    requires a.now <= b.now
    ensures a.UtcDay() <= b.UtcDay()
  {
    assert a.now / SECONDS_PER_DAY <= b.now / SECONDS_PER_DAY;
  }
}
