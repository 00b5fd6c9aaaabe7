/** What the clock of packages/core/src/scheduler-engine.ts (`onCronFire`)
    promises about the occurrences it is owed. */
module Clock {
  import opened Wrappers
  import opened Calendar
  import opened Cron
  import opened RunStore
  import opened SchedulerState

  /** An instant at which a cron expression fires. */
  predicate Occurs(cron: ParsedCron, offset: int, at: int) {
    at % MINUTE_MS == 0 && Fires(cron, offset, at / MINUTE_MS)
  }

  lemma NextOccurrence(cron: ParsedCron, offset: int, after: int, next: int)
    requires NextFire(cron, offset, after) == Some(next)
    ensures next > after && Occurs(cron, offset, next)
    ensures forall t | after < t < next :: !Occurs(cron, offset, t)
  {
    NextFireIsLeast(cron, offset, after);
    forall t | after < t < next ensures !Occurs(cron, offset, t) {
      if t % MINUTE_MS == 0 {
        assert t == (t / MINUTE_MS) * MINUTE_MS;
      }
    }
    hide NextFire, Fires;
  }

  /** Strictly increasing, and without a gap: every occurrence between the first
      firing and `next` is among the firings. */
  ghost predicate Gapless(cron: ParsedCron, offset: int, fired: seq<Firing>, next: int)
    requires fired != []
  {
    && (forall i, j | 0 <= i < j < |fired| :: fired[i].at < fired[j].at)
    && (forall i | 0 <= i < |fired| :: fired[i].at < next)
    && (forall i | 1 <= i < |fired| :: Occurs(cron, offset, fired[i].at))
    && (forall t | fired[0].at < t < next && Occurs(cron, offset, t) :: HasFired(fired, t))
    && Occurs(cron, offset, next)
  }

  predicate HasFired(fired: seq<Firing>, t: int) {
    exists i :: 0 <= i < |fired| && fired[i].at == t
  }

  /** A chain of firings contains every occurrence of the expression between its
      first member and its successor, exactly once and in order. */
  lemma {:induction false} EveryOccurrenceOnce(cron: ParsedCron, offset: int, fired: seq<Firing>, next: int)
    requires fired != [] && Consecutive(cron, offset, fired, next)
    ensures Gapless(cron, offset, fired, next)
  {
    hide Gapless, NextFire;
    var n := |fired| - 1;
    assert NextFire(cron, offset, fired[n].at) == Some(FollowedBy(fired, n, next));
    NextOccurrence(cron, offset, fired[n].at, next);
    if n > 0 {
      FrontIsConsecutive(cron, offset, fired, next);
      EveryOccurrenceOnce(cron, offset, fired[..n], fired[n].at);
    }
    GaplessExtends(cron, offset, fired, next);
  }

  lemma GaplessExtends(cron: ParsedCron, offset: int, fired: seq<Firing>, next: int)
    requires fired != []
    requires |fired| > 1 ==> Gapless(cron, offset, fired[..|fired| - 1], fired[|fired| - 1].at)
    requires fired[|fired| - 1].at < next && Occurs(cron, offset, next)
    requires forall t | fired[|fired| - 1].at < t < next :: !Occurs(cron, offset, t)
    ensures Gapless(cron, offset, fired, next)
  {
    hide Occurs;
    var n := |fired| - 1;
    var front := fired[..n];
    assert forall i | 0 <= i < n :: front[i] == fired[i];
    forall t | fired[0].at < t < next && Occurs(cron, offset, t) ensures HasFired(fired, t) {
      if t < fired[n].at {
        assert HasFired(front, t);
        var i :| 0 <= i < |front| && front[i].at == t;
        assert fired[i].at == t;
      } else {
        assert fired[n].at == t;
      }
    }
  }

  lemma FrontIsConsecutive(cron: ParsedCron, offset: int, fired: seq<Firing>, next: int)
    requires fired != [] && Consecutive(cron, offset, fired, next)
    ensures Consecutive(cron, offset, fired[..|fired| - 1], fired[|fired| - 1].at)
  {
    var n := |fired| - 1;
    var front := fired[..n];
    forall i | 0 <= i < n ensures NextFire(cron, offset, front[i].at) == Some(FollowedBy(front, i, fired[n].at)) {
      assert NextFire(cron, offset, fired[i].at) == Some(FollowedBy(fired, i, next));
    }
    hide NextFire;
  }

  /** A loop that caught up has handled every occurrence owed up to now, in
      order, each once, and left the cursor at the first one after them. */
  lemma CaughtUpOwesNothing(schedule: Schedule, fired: seq<Firing>, end: CronEnd, now: int)
    requires CronDone(schedule, fired, end, now) && end.CaughtUp? && fired != []
    ensures fired[0].at == schedule.nextRunAt.value
    ensures forall i, j | 0 <= i < j < |fired| :: fired[i].at < fired[j].at
    ensures forall t | schedule.nextRunAt.value < t <= now
            && Occurs(schedule.trigger.cron, schedule.trigger.offset, t) ::
              HasFired(fired, t)
    ensures end.cursor > now && Occurs(schedule.trigger.cron, schedule.trigger.offset, end.cursor)
  {
    EveryOccurrenceOnce(schedule.trigger.cron, schedule.trigger.offset, fired, end.cursor);
    hide Consecutive, Occurs;
  }

  /** A schedule that is not owed its occurrences one by one computes the next one
      from the clock. A timer may fire up to a second early, and then the
      occurrence that just fired is again the next one: it fires a second time.
      This happens exactly when the clock has not reached the occurrence. */
  lemma EarlyTimerRepeats(schedule: Schedule, processDownCatchUp: bool, now: int)
    requires schedule.trigger.CronTrigger? && schedule.nextRunAt.Some? && !Live(schedule, processDownCatchUp)
    requires Occurs(schedule.trigger.cron, schedule.trigger.offset, schedule.nextRunAt.value)
    requires schedule.nextRunAt.value - now <= EARLY_MS
    ensures Successor(schedule, processDownCatchUp, now) == schedule.nextRunAt <==> now < schedule.nextRunAt.value
  {
    var cron, offset, at := schedule.trigger.cron, schedule.trigger.offset, schedule.nextRunAt.value;
    if now < at {
      DueIsNext(cron, offset, now, at);
    } else if NextFire(cron, offset, now).Some? {
      NextOccurrence(cron, offset, now, NextFire(cron, offset, now).value);
    }
    hide NextFire, Occurs;
  }

  lemma DueIsNext(cron: ParsedCron, offset: int, now: int, at: int)
    requires Occurs(cron, offset, at) && now < at <= now + EARLY_MS
    ensures NextFire(cron, offset, now) == Some(at)
  {
    var start := FirstMinute(now);
    assert start == at / MINUTE_MS;
    assert start < Horizon(cron, offset, now);
    hide Fires, FiringDay;
  }

  /** A due round of an armed schedule returns without accepting its occurrence exactly
      if the expression does not fire again within the horizon: from the occurrence
      if occurrences are owed one by one, from the clock if not. */
  lemma DueRoundDropsIff(s: ScheduleId, id: RunId, processDownCatchUp: bool, running: bool, dispatchOnly: bool,
                         r: CronOutcome, k: nat, now: int, c: Core, c': Core)
    requires CronRoundOutcome(s, id, processDownCatchUp, running, dispatchOnly, r, k, now, c, c')
    requires Armed(c, s, running, dispatchOnly)
    requires c.schedules[s].nextRunAt.Some? ==> c.schedules[s].nextRunAt.value - now <= EARLY_MS
    ensures var schedule := c.schedules[s];
            var from := if Live(schedule, processDownCatchUp) && schedule.nextRunAt.Some? then schedule.nextRunAt.value
                else now;
            r.NoSuccessor? <==>
            forall m | FirstMinute(from) <= m < Horizon(schedule.trigger.cron, schedule.trigger.offset, from) ::
              !Fires(schedule.trigger.cron, schedule.trigger.offset, m)
    ensures r.NoSuccessor? ==> c' == c
  {
    var schedule := c.schedules[s];
    var from := if Live(schedule, processDownCatchUp) && schedule.nextRunAt.Some? then schedule.nextRunAt.value
        else now;
    NothingFoundIff(schedule.trigger.cron, schedule.trigger.offset, from);
    hide NextFire, Fires, Horizon, Accepted;
  }

  /** `0 0 29 2 *` on 29 February 2096: the occurrence is due, but the search for
      the next one finds none within its horizon, and `onCronFire` returns
      without accepting the due occurrence. */
  lemma LeapOccurrenceIsDropped(at: int)
    requires at == DayNumber(Date(2096, 2, 29)) * DAY * MINUTE_MS
    ensures Occurs(LEAP_DAY, 0, at) && NextFire(LEAP_DAY, 0, at) == None
  {
    var day := DayNumber(Date(2096, 2, 29));
    DateOfDayNumber(Date(2096, 2, 29));
    assert day * DAY == at / MINUTE_MS && at % MINUTE_MS == 0;
    assert DayIndex(day * DAY, 0) == day && MinuteOfDay(day * DAY, 0) == 0;
    LeapDayWithoutSuccessor(day);
  }

  lemma LeapDayWithoutSuccessor(day: int)
    requires day == DayNumber(Date(2096, 2, 29))
    ensures NextFire(LEAP_DAY, 0, day * DAY * MINUTE_MS) == None
  {
    DateOfDayNumber(Date(2096, 2, 29));
    var after := day * DAY * MINUTE_MS;
    var start, end := FirstMinute(after), Horizon(LEAP_DAY, 0, after);
    assert start == day * DAY + 1 && DayIndex(start, 0) == day;
    ScanIsLeast(LEAP_DAY, 0, start, end);
    forall m | start <= m < end ensures !Fires(LEAP_DAY, 0, m) {
      QuietAfterLeapDay(day, m);
    }
    hide Fires;
  }

  lemma QuietAfterLeapDay(day: int, m: int)
    requires day == DayNumber(Date(2096, 2, 29))
    requires day * DAY < m < (day + 1 + MAX_DAYS) * DAY
    ensures !Fires(LEAP_DAY, 0, m)
  {
    if m < (day + 1) * DAY {
      assert MinuteOfDay(m, 0) == m - day * DAY;
      NotAtMidnight(m);
    } else {
      MarchFollows(day);
      NoLeapMinute(day + 1, m);
    }
    hide Fires;
  }

  lemma NotAtMidnight(m: int)
    requires 0 < MinuteOfDay(m, 0)
    ensures !Fires(LEAP_DAY, 0, m)
  {
  }

  lemma MarchFollows(day: int)
    requires day == DayNumber(Date(2096, 2, 29))
    ensures day + 1 == DayNumber(Date(2096, 3, 1))
  {
  }
}
