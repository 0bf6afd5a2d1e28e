/** start.py: how long the daily runner waits before the next run. The
    clock is the time of day, in microseconds since midnight, as
    `datetime.now()` reads it; the wait is returned in microseconds rather
    than as the floating-point seconds of `total_seconds()`. */
module Scheduler {
  import opened Wrappers

  /** A day, 86400 seconds, in microseconds. */
  const DAY: int := 86400000000

  /** A time of day, in microseconds since midnight. */
  type Clock = t: int | 0 <= t < 86400000000

  /** The schedule's defaults: 06:00. */
  const DEFAULT_HOUR := 6
  const DEFAULT_MINUTE := 0

  /** `datetime.replace` accepts the hour and the minute. */
  predicate ValidTime(hour: int, minute: int) {
    0 <= hour < 24 && 0 <= minute < 60
  }

  /** Today at `hour:minute:00.000000`. */
  function TargetToday(hour: int, minute: int): int {
    (hour * 3600 + minute * 60) * 1000000
  }

  /** `get_seconds_until_next_run`: the time from `now` to the next
      `hour:minute`, today if that is still to come and otherwise tomorrow;
      `None` where `datetime.replace` raises for an hour or minute out of
      range. */
  function TimeUntilNextRun(hour: int, minute: int, now: Clock): (r: Option<int>)
    ensures r.Some? <==> ValidTime(hour, minute)
    ensures r.Some? ==> 0 < r.value <= DAY
    ensures r.Some? ==> (r.value == DAY <==> now == TargetToday(hour, minute))
    ensures r.Some? && TargetToday(hour, minute) > now ==> r.value == TargetToday(hour, minute) - now < DAY
  {
    if !(0 <= hour < 24 && 0 <= minute < 60) then None
    else
      var nextRun := TargetToday(hour, minute);
      var nextRun' := if nextRun <= now then nextRun + DAY else nextRun;
      Some(nextRun' - now)
  }

  /** Waiting `wait` microseconds from `now` reaches the time of day `t`. */
  predicate Reaches(now: Clock, wait: int, t: int) {
    (now + wait) % DAY == t
  }

  /** Waiting that long lands exactly on `hour:minute`, today or tomorrow,
      and no earlier moment after `now` is an `hour:minute`. */
  lemma {:induction false} WaitLandsOnTarget(hour: int, minute: int, now: Clock)
    requires ValidTime(hour, minute)
    ensures Reaches(now, TimeUntilNextRun(hour, minute, now).value, TargetToday(hour, minute))
    ensures forall w :: 0 < w < TimeUntilNextRun(hour, minute, now).value ==> !Reaches(now, w, TargetToday(hour, minute))
  {
    var t := TargetToday(hour, minute);
    var r := TimeUntilNextRun(hour, minute, now).value;
    assert 0 <= t < DAY;
    if t <= now {
      assert now + r == t + DAY;
      forall w | 0 < w < r ensures !Reaches(now, w, t) {
        if now + w < DAY {
          assert (now + w) % DAY == now + w;
        } else {
          assert (now + w) % DAY == now + w - DAY;
        }
      }
    } else {
      assert now + r == t;
      forall w | 0 < w < r ensures !Reaches(now, w, t) {
        assert (now + w) % DAY == now + w;
      }
    }
  }

  /** With the default schedule a runner started at midnight waits six
      hours. */
  lemma {:induction false} DefaultScheduleFromMidnight()
    ensures TimeUntilNextRun(DEFAULT_HOUR, DEFAULT_MINUTE, 0) == Some(6 * 3600 * 1000000)
  {
  }
}
