/**
 * The countdown of the hero section: the time left until the ceremony,
 * recomputed once per second, split into days, hours, minutes and seconds,
 * and all zero once the ceremony has begun.
 */
module Hero {

  datatype TimeLeft = TimeLeft(days: int, hours: int, minutes: int, seconds: int)

  const Zero := TimeLeft(0, 0, 0, 0)

  /** `Date.UTC(2026, 0, 22, 6, 30, 0)`: 22 January 2026, 06:30 UTC, which
      is 14:30 at UTC+8, in milliseconds since the epoch. */
  const TargetMs: int := 1769063400000

  const MsPerSecond := 1000
  const MsPerMinute := 60000
  const MsPerHour := 3600000
  const MsPerDay := 86400000

  /** `calculateTimeLeft` at instant `now` (milliseconds). */
  function TimeLeftAt(now: int): TimeLeft {
    var difference := TargetMs - now;
    if difference > 0 then
      TimeLeft(difference / MsPerDay,
               (difference / MsPerHour) % 24,
               (difference / MsPerMinute) % 60,
               (difference / MsPerSecond) % 60)
    else Zero
  }

  /** The countdown read back as a number of seconds. */
  function TotalSeconds(t: TimeLeft): int {
    t.days * 86400 + t.hours * 3600 + t.minutes * 60 + t.seconds
  }

  lemma SecondsOfMinutes(d: int)
    ensures (d / 1000) / 60 == d / 60000
    ensures (d / 1000) / 3600 == d / 3600000
    ensures (d / 1000) / 86400 == d / 86400000
  {
  }

  lemma SplitSeconds(s: int)
    ensures s == 86400 * (s / 86400) + 3600 * ((s / 3600) % 24) + 60 * ((s / 60) % 60) + s % 60
  {
    var m := s / 60;
    var h := m / 60;
    assert s == 60 * m + s % 60;
    assert m == 60 * h + m % 60;
    assert h == s / 3600;
    assert h == 24 * (h / 24) + h % 24;
    assert h / 24 == s / 86400;
  }

  /** Before the ceremony the four fields are in range and together make up
      the whole seconds left; from the ceremony on they are all zero. */
  lemma {:induction false} TimeLeftSpec(now: int)
    ensures var t := TimeLeftAt(now);
      t.days >= 0 && 0 <= t.hours < 24 && 0 <= t.minutes < 60 && 0 <= t.seconds < 60
    ensures TargetMs - now > 0 ==> TotalSeconds(TimeLeftAt(now)) == (TargetMs - now) / 1000
    ensures TargetMs - now <= 0 ==> TimeLeftAt(now) == Zero
  {
    var d := TargetMs - now;
    if d > 0 {
      SecondsOfMinutes(d);
      SplitSeconds(d / 1000);
    }
  }

  /** The countdown never goes up as time passes. */
  lemma {:induction false} CountdownNonIncreasing(earlier: int, later: int)
    requires earlier <= later
    ensures TotalSeconds(TimeLeftAt(later)) <= TotalSeconds(TimeLeftAt(earlier))
  {
    TimeLeftSpec(earlier);
    TimeLeftSpec(later);
  }

  /** Once the ceremony has begun the countdown stays at zero. */
  lemma StaysZero(now: int, later: int)
    requires TargetMs <= now <= later
    ensures TimeLeftAt(now) == Zero && TimeLeftAt(later) == Zero
  {
  }

  /** The countdown reads zero exactly when less than a second is left. */
  lemma {:induction false} CountdownZero(now: int)
    ensures TimeLeftAt(now) == Zero <==> TargetMs - now < 1000
  {
    TimeLeftSpec(now);
    var t := TimeLeftAt(now);
    if TargetMs - now >= 1000 {
      assert TotalSeconds(t) >= 1;
    }
  }

  /** The component state: the last computed countdown. */
  class Countdown {
    var timeLeft: TimeLeft

    /** The initial state, before the first computation. */
    constructor ()
      ensures timeLeft == Zero
    {
      timeLeft := Zero;
    }

    /** One run of `calculateTimeLeft`: on mount and at every interval tick,
        with the clock reading passed in as `now`. */
    method Tick(now: int)
      modifies this
      ensures timeLeft == TimeLeftAt(now)
      ensures 0 <= timeLeft.hours < 24 && 0 <= timeLeft.minutes < 60 && 0 <= timeLeft.seconds < 60
    {
      var difference := TargetMs - now;
      if difference > 0 {
        timeLeft := TimeLeft(difference / (1000 * 60 * 60 * 24),
                             (difference / (1000 * 60 * 60)) % 24,
                             (difference / 1000 / 60) % 60,
                             (difference / 1000) % 60);
      } else {
        timeLeft := TimeLeft(0, 0, 0, 0);
      }
      TimeLeftSpec(now);
    }
  }
}
