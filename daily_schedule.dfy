/**
 * The daily background refresh of background.js: `scheduleDailyFetch` waits
 * until the next 08:00:00.000 local time, runs the catalog refresh and
 * schedules itself again.  An instant is a count of milliseconds of local
 * time since some local midnight; every day has the same length.
 */
module DailySchedule {

  import opened Wrappers

  const DayMs: nat := 86_400_000

  /** `setHours(8, 0, 0, 0)`: 08:00:00.000 as milliseconds after midnight. */
  const RunAtMs: nat := 8 * 3_600_000

  /** The local time of day of an instant. */
  function TimeOfDay(t: nat): nat
  {
    t % DayMs
  }

  /** The instant that is 08:00 on the day of `now`. */
  function TodayAtEight(now: nat): nat
  {
    (now / DayMs) * DayMs + RunAtMs
  }

  lemma DayDecomposition(q: nat, m: nat)
    requires m < DayMs
    ensures (q * DayMs + m) / DayMs == q && (q * DayMs + m) % DayMs == m
  {
  }

  /**
   * `timeUntilNextRun`: the delay to the next 08:00:00.000, today if that is
   * not yet past (the test is a strict `now > nextRun`), tomorrow otherwise.
   * It is under a day, it lands on 08:00:00.000, and no earlier instant from
   * `now` on does.
   */
  function DelayUntilNextRun(now: nat): (delay: nat)
    ensures delay < DayMs
    ensures TimeOfDay(now + delay) == RunAtMs
    ensures forall t :: now <= t < now + delay ==> TimeOfDay(t) != RunAtMs
  {
    var q := now / DayMs;
    var m := now % DayMs;
    var nextRun := TodayAtEight(now);
    if now > nextRun then
      DayDecomposition(q + 1, RunAtMs);
      assert forall t :: now <= t < nextRun + DayMs ==> TimeOfDay(t) != RunAtMs by {
        forall t | now <= t < nextRun + DayMs
          ensures TimeOfDay(t) != RunAtMs
        {
          if t < (q + 1) * DayMs {
            DayDecomposition(q, t - q * DayMs);
          } else {
            DayDecomposition(q + 1, t - (q + 1) * DayMs);
          }
        }
      }
      nextRun + DayMs - now
    else
      DayDecomposition(q, RunAtMs);
      assert forall t :: now <= t < nextRun ==> TimeOfDay(t) != RunAtMs by {
        forall t | now <= t < nextRun
          ensures TimeOfDay(t) != RunAtMs
        {
          DayDecomposition(q, t - q * DayMs);
        }
      }
      nextRun - now
  }

  /** At exactly 08:00:00.000 the delay is zero; any later instant waits for tomorrow. */
  lemma DelayAtAndAfterEight(now: nat)
    ensures TimeOfDay(now) == RunAtMs ==> DelayUntilNextRun(now) == 0
    ensures TimeOfDay(now) > RunAtMs ==> DelayUntilNextRun(now) == DayMs + RunAtMs - TimeOfDay(now)
    ensures TimeOfDay(now) <= RunAtMs ==> DelayUntilNextRun(now) == RunAtMs - TimeOfDay(now)
  {
    var d := DelayUntilNextRun(now);
    var m := TimeOfDay(now);
    var q := now / DayMs;
    DayDecomposition(q, m);
    DayDecomposition(q + 1, RunAtMs);
  }

  /** Two instants at the same time of day are whole days apart. */
  lemma SameTimeOfDay(a: nat, b: nat)
    requires a < b && TimeOfDay(a) == TimeOfDay(b)
    ensures b >= a + DayMs
  {
  }

  /**
   * When the callback fired at 08:00 reschedules `lag` milliseconds later,
   * the next run is the next day's 08:00 if some time has passed, and the
   * very same instant (a second run at once) if none has.
   */
  lemma RescheduleAfterFiring(fired: nat, lag: nat)
    requires TimeOfDay(fired) == RunAtMs && lag < DayMs
    ensures lag == 0 ==> fired + lag + DelayUntilNextRun(fired + lag) == fired
    ensures lag > 0 ==> fired + lag + DelayUntilNextRun(fired + lag) == fired + DayMs
  {
    var now := fired + lag;
    var next := now + DelayUntilNextRun(now);
    if lag > 0 {
      var q := fired / DayMs;
      DayDecomposition(q + 1, RunAtMs);
      assert TimeOfDay(fired + DayMs) == RunAtMs;
      assert next <= fired + DayMs;
      SameTimeOfDay(fired, next);
    }
  }

  /**
   * The background side of the app: the due instants of the timers that
   * `setTimeout` has set and that have not fired yet, and how many catalog
   * refreshes have run. Scheduling never cancels a timer, so each call adds
   * one.
   */
  class DailyFetcher {
    var pending: seq<nat>
    var refreshes: nat

    constructor ()
      ensures pending == [] && refreshes == 0
    {
      pending := [];
      refreshes := 0;
    }

    /** `scheduleDailyFetch()` called at `now`: one more timer, due at the next 08:00. */
    method ScheduleDailyFetch(now: nat)
      modifies this
      ensures pending == old(pending) + [now + DelayUntilNextRun(now)]
      ensures refreshes == old(refreshes)
    {
      var delay := DelayUntilNextRun(now);
      pending := pending + [now + delay];
    }

    /**
     * The callback of pending timer `i`, run at `now`: the timer is used up,
     * one catalog refresh runs, and the reschedule sets its successor, so the
     * number of pending timers is unchanged.
     */
    method Fire(i: nat, now: nat)
      requires i < |pending| && pending[i] <= now
      modifies this
      ensures refreshes == old(refreshes) + 1
      ensures pending == old(pending[..i] + pending[i + 1..]) + [now + DelayUntilNextRun(now)]
      ensures |pending| == old(|pending|)
      ensures pending[|pending| - 1] >= now
    {
      pending := pending[..i] + pending[i + 1..];
      refreshes := refreshes + 1;
      ScheduleDailyFetch(now);
    }
  }
}
