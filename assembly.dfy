/** The result of a run (scheduler.ts, end of createSchedule): dates in
    ascending order, each date's events stably sorted by start, and the
    summary counts and hours. Hours are kept as whole tenths. */
module Assembly {
  import opened Types
  import opened Clock
  import opened Slots
  import opened Placement
  import opened Ordering

  // ---------------------------------------------------------------- events by start

  /** The sort key `timeToMinutes(e.start)`. Every event the passes produce
      has a readable start; an unreadable one would count as 0. */
  function StartKey(e: ScheduledEvent): int
  {
    if IsClock(e.start) then TimeToMinutes(e.start) else 0
  }

  /** `events.sort((a, b) => timeToMinutes(a.start) - timeToMinutes(b.start))`:
      Array.prototype.sort is stable, so the events come in start order with
      ties in their original order. */
  function SortByStart(es: seq<ScheduledEvent>): seq<ScheduledEvent>
  {
    SortBy(es, StartKey)
  }

  // ---------------------------------------------------------------- summary

  /** `projects.reduce((sum, p) => sum + p.tasks.length, 0)`. */
  function TotalTasks(projects: seq<Project>): nat
  {
    if projects == [] then 0
    else TotalTasks(projects[..|projects| - 1]) + |projects[|projects| - 1].tasks|
  }

  /** Every project's tasks are counted, so any one project, or any two
      different ones, have at most that many tasks. */
  lemma {:induction false} TotalTasksCovers(projects: seq<Project>, i: nat, j: nat)
    requires i < |projects| && j < |projects|
    ensures |projects[i].tasks| <= TotalTasks(projects)
    ensures i != j ==> |projects[i].tasks| + |projects[j].tasks| <= TotalTasks(projects)
  {
    var n := |projects| - 1;
    var init := projects[..n];
    if i < n && j < n {
      TotalTasksCovers(init, i, j);
    } else if i < n {
      TotalTasksCovers(init, i, i);
    } else if j < n {
      TotalTasksCovers(init, j, j);
    }
  }

  /** The minutes an event adds to `totalMinutes`: end minus start, as read
      back from its "HH:MM" strings. */
  function EventMinutes(e: ScheduledEvent): int
  {
    if IsClock(e.start) && IsClock(e.end) then TimeToMinutes(e.end) - TimeToMinutes(e.start) else 0
  }

  function EventsMinutes(es: seq<ScheduledEvent>): int
  {
    if es == [] then 0 else EventsMinutes(es[..|es| - 1]) + EventMinutes(es[|es| - 1])
  }

  function TotalMinutes(schedule: seq<DaySchedule>): int
  {
    if schedule == [] then 0
    else TotalMinutes(schedule[..|schedule| - 1]) + EventsMinutes(schedule[|schedule| - 1].events)
  }

  /** `Math.round(totalMinutes / 60 * 10)`, the hours in tenths, on exact
      numbers: the nearest whole number to minutes/6, halves rounded up. */
  function RoundTenths(minutes: int): int
  {
    (minutes + 3) / 6
  }

  lemma RoundTenthsNearest(minutes: int)
    ensures 6 * RoundTenths(minutes) - 3 <= minutes < 6 * RoundTenths(minutes) + 3
  {
  }

  /** An event that ends before midnight adds exactly its duration. */
  lemma EventMinutesWithinDay(info: SlotInfo, used: nat, duration: nat, title: string,
                              kind: EventType, source: string, taskId: Option<string>)
    requires IsClock(info.start)
    requires TimeToMinutes(info.start) + used + duration < MinutesPerDay
    ensures EventMinutes(SlotEvent(info, used, duration, title, kind, source, taskId)) == duration
  {
    SlotEventSpan(info, used, duration, title, kind, source, taskId);
  }

  /** An event that ends exactly at midnight (the last task of a slot
      "23:00-24:00", say) is rendered ending "00:00", so it adds minus its
      start minute to the total instead of its duration. */
  lemma EventEndingAtMidnight(info: SlotInfo, used: nat, duration: nat, title: string,
                              kind: EventType, source: string, taskId: Option<string>)
    requires IsClock(info.start) && duration > 0
    requires TimeToMinutes(info.start) + used + duration == MinutesPerDay
    ensures EventMinutes(SlotEvent(info, used, duration, title, kind, source, taskId))
            == -(TimeToMinutes(info.start) + used)
  {
    var s := TimeToMinutes(info.start) + used;
    SlotEventTimes(info, used, duration, title, kind, source, taskId);
    WithinDay(s);
  }

  // ---------------------------------------------------------------- the result

  /** The schedule list: each date with events, ascending, with its events
      sorted by start. */
  ghost function DaySchedules(days: map<int, seq<ScheduledEvent>>): seq<DaySchedule>
  {
    var dates := SortedDates(days.Keys);
    seq(|dates|, i requires 0 <= i < |dates| => DaySchedule(dates[i], SortByStart(DayEvents(days, dates[i]))))
  }

  /** The result of createSchedule from the final date map and the two pass
      counts. */
  ghost function Assemble(projects: seq<Project>, days: map<int, seq<ScheduledEvent>>,
                          focusCount: nat, bufferCount: nat): ScheduleResult
  {
    var schedule := DaySchedules(days);
    var total := TotalTasks(projects);
    var scheduled := focusCount + bufferCount;
    ScheduleResult(schedule, Summary(total, scheduled, total - scheduled, RoundTenths(TotalMinutes(schedule))))
  }

  /** The schedule has one entry per date with events, in ascending date
      order. */
  lemma DaySchedulesDates(days: map<int, seq<ScheduledEvent>>)
    ensures var s := DaySchedules(days);
            |s| == |days.Keys|
            && (forall i, j :: 0 <= i < j < |s| ==> s[i].date < s[j].date)
            && (forall i :: 0 <= i < |s| ==> s[i].date in days)
            && (forall date :: date in days ==> exists i :: 0 <= i < |s| && s[i].date == date)
  {
    var s := DaySchedules(days);
    var dates := SortedDates(days.Keys);
    SortedDatesFacts(days.Keys);
    forall date | date in days
      ensures exists i :: 0 <= i < |s| && s[i].date == date
    {
      var i :| 0 <= i < |dates| && dates[i] == date;
      assert s[i].date == date;
    }
  }

  /** Each entry holds exactly its date's events, in start order, events
      with the same start kept in the order they were placed. */
  lemma DayScheduleEvents(days: map<int, seq<ScheduledEvent>>, i: nat)
    requires i < |DaySchedules(days)|
    ensures var d := DaySchedules(days)[i];
            d.date in days
            && SortedBy(d.events, StartKey) && multiset(d.events) == multiset(days[d.date])
            && forall v :: WithKey(d.events, StartKey, v) == WithKey(days[d.date], StartKey, v)
  {
    var d := DaySchedules(days)[i];
    SortedDatesFacts(days.Keys);
    assert d.date in days;
    assert d.events == SortBy(days[d.date], StartKey);
    SortBySorted(days[d.date], StartKey);
    SortByPerm(days[d.date], StartKey);
    forall v
      ensures WithKey(d.events, StartKey, v) == WithKey(days[d.date], StartKey, v)
    {
      SortByStable(days[d.date], StartKey, v);
    }
  }
}
