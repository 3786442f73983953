/**
  The stand-alone randomised scheduler: a fixed daily window of thirty
  minutes, 05:00 to 05:30 at a fixed UTC-6 offset, rolled over to the next
  day once it has passed, a random whole-second offset inside it, and a
  sleep that is never negative.

  Time is an integer count of microseconds since the Unix epoch in UTC;
  `datetime.utcnow()` carries microseconds, the window bounds do not.
 */
module Scheduler {
  import opened Common

  const MicrosPerSecond: int := 1_000_000
  const SecondsPerHour: int := 3600
  const SecondsPerDay: int := 86400
  const MicrosPerDay: int := SecondsPerDay * MicrosPerSecond

  /** The fixed offset of the target zone, in hours; no daylight saving. */
  const CstOffsetHours: int := -6
  const StartHour: int := 5
  const StartMinute: int := 0
  const EndHour: int := 5
  const EndMinute: int := 30

  datatype Window = Window(start: int, end: int)

  /** What one execution of the scheduler decides. */
  datatype Plan = Plan(window: Window, rolled: bool, offsetSeconds: int, scheduled: int, sleep: int)

  /** Midnight UTC of the day containing `t`. */
  function Midnight(t: int): (m: int)
    ensures m <= t < m + MicrosPerDay
    ensures m % MicrosPerDay == 0
  {
    t - t % MicrosPerDay
  }

  /** `t.replace(hour=h, minute=mi, second=0, microsecond=0)`. */
  function AtClock(t: int, h: int, mi: int): (r: int)
    requires 0 <= h < 24 && 0 <= mi < 60
    ensures Midnight(r) == Midnight(t)
    ensures r - Midnight(t) == (h * SecondsPerHour + mi * 60) * MicrosPerSecond
  {
    var k := (h * SecondsPerHour + mi * 60) * MicrosPerSecond;
    MidnightOf(Midnight(t), k);
    Midnight(t) + k
  }

  /** Today's window as the code computes it: the local hours shifted by the offset. */
  function TodayWindow(now: int): (w: Window)
    ensures Midnight(w.start) == Midnight(now) && Midnight(w.end) == Midnight(now)
    ensures w.start - Midnight(now) == 11 * SecondsPerHour * MicrosPerSecond
    ensures w.end - w.start == 30 * 60 * MicrosPerSecond
  {
    Window(AtClock(now, StartHour - CstOffsetHours, StartMinute),
           AtClock(now, EndHour - CstOffsetHours, EndMinute))
  }

  /** The window after the roll-over check. */
  function PlanWindow(now: int): (w: Window)
    ensures now > TodayWindow(now).end ==>
              w.start == TodayWindow(now).start + MicrosPerDay && w.end == TodayWindow(now).end + MicrosPerDay
    ensures now <= TodayWindow(now).end ==> w == TodayWindow(now)
  {
    var today := TodayWindow(now);
    if now > today.end then Window(today.start + MicrosPerDay, today.end + MicrosPerDay)
    else today
  }

  /** `int((end - start).total_seconds())`: the window length in whole seconds. */
  function WindowSeconds(w: Window): int
  {
    (w.end - w.start) / MicrosPerSecond
  }

  /**
    One run of the scheduler at instant `now` with the random generator's
    `draw`. The sleep is `max(0, scheduled - now)`, kept in microseconds.
   */
  function Schedule(now: int, draw: nat): (p: Plan)
    ensures p.window == PlanWindow(now)
    ensures p.rolled <==> now > TodayWindow(now).end
    ensures WindowSeconds(p.window) == 1800
    ensures 0 <= p.offsetSeconds <= 1800
    ensures p.window.start <= p.scheduled <= p.window.end
    ensures p.scheduled == p.window.start + p.offsetSeconds * MicrosPerSecond
    ensures p.sleep >= 0
    ensures p.sleep == if p.scheduled - now > 0 then p.scheduled - now else 0
  {
    var w := PlanWindow(now);
    var secs := WindowSeconds(w);
    var offset := RandInt(0, secs, draw);
    var scheduled := w.start + offset * MicrosPerSecond;
    var gap := scheduled - now;
    Plan(w, now > TodayWindow(now).end, offset, scheduled, if gap > 0 then gap else 0)
  }

  /** The window is 11:00:00 to 11:30:00 UTC, which is 05:00 to 05:30 at UTC-6. */
  lemma {:induction false} WindowIsElevenUtc(now: int)
    ensures PlanWindow(now).start - Midnight(PlanWindow(now).start) == 11 * SecondsPerHour * MicrosPerSecond
    ensures PlanWindow(now).end - PlanWindow(now).start == 1800 * MicrosPerSecond
    ensures (PlanWindow(now).start + CstOffsetHours * SecondsPerHour * MicrosPerSecond) % MicrosPerDay
            == StartHour * SecondsPerHour * MicrosPerSecond
  {
    var t := TodayWindow(now);
    var w := PlanWindow(now);
    var m := Midnight(now);
    assert t.start == m + 11 * SecondsPerHour * MicrosPerSecond;
    if now > t.end {
      assert w.start == (m + MicrosPerDay) + 11 * SecondsPerHour * MicrosPerSecond;
      MidnightOf(m + MicrosPerDay, 11 * SecondsPerHour * MicrosPerSecond);
      MidnightOf(m + MicrosPerDay, 5 * SecondsPerHour * MicrosPerSecond);
    } else {
      MidnightOf(m, 11 * SecondsPerHour * MicrosPerSecond);
      MidnightOf(m, 5 * SecondsPerHour * MicrosPerSecond);
    }
  }

  lemma {:induction false} MidnightOf(m: int, k: int)
    requires m % MicrosPerDay == 0
    requires 0 <= k < MicrosPerDay
    ensures Midnight(m + k) == m
    ensures (m + k) % MicrosPerDay == k
  {
  }

  /** Without a roll-over the window lies on the same UTC day as `now`. */
  lemma {:induction false} WindowOnTodayUnlessRolled(now: int)
    ensures now <= TodayWindow(now).end ==> Midnight(PlanWindow(now).start) == Midnight(now)
    ensures now > TodayWindow(now).end ==> Midnight(PlanWindow(now).start) == Midnight(now) + MicrosPerDay
  {
    var m := Midnight(now);
    if now > TodayWindow(now).end {
      MidnightOf(m + MicrosPerDay, 11 * SecondsPerHour * MicrosPerSecond);
    } else {
      MidnightOf(m, 11 * SecondsPerHour * MicrosPerSecond);
    }
  }

  /** After a roll-over the scheduled instant is strictly ahead, so the sleep is the exact gap. */
  lemma {:induction false} RolledSleepIsExactGap(now: int, draw: nat)
    requires now > TodayWindow(now).end
    ensures Schedule(now, draw).scheduled - now > 0
    ensures Schedule(now, draw).sleep == Schedule(now, draw).scheduled - now
  {
    var m := Midnight(now);
    assert now < m + MicrosPerDay;
  }

  /** The planned window never ends before `now`: the scheduler never targets the past day. */
  lemma {:induction false} PlannedWindowNotPast(now: int, draw: nat)
    ensures now <= Schedule(now, draw).window.end
    ensures Schedule(now, draw).sleep < MicrosPerDay
  {
    var m := Midnight(now);
    assert now < m + MicrosPerDay;
  }

  /** Inside the window the scheduled instant may already be past: the sleep is then zero. */
  lemma {:induction false} InWindowMaySleepZero(now: int)
    requires TodayWindow(now).start < now <= TodayWindow(now).end
    ensures Schedule(now, 0).scheduled < now
    ensures Schedule(now, 0).sleep == 0
  {
  }

  /** Every whole-second offset of the window is a possible choice. */
  lemma {:induction false} EveryOffsetReachable(now: int, k: int)
    requires 0 <= k <= 1800
    ensures Schedule(now, k).offsetSeconds == k
    ensures Schedule(now, k).scheduled == PlanWindow(now).start + k * MicrosPerSecond
  {
    var w := PlanWindow(now);
    assert WindowSeconds(w) == 1800;
    RandIntCovers(0, 1800, k);
  }
}
