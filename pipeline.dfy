/** createSchedule and calculateRequiredWeeks (scheduler.ts): the slots of
    the date range, the routine pass, the focus pass, the buffer pass and the
    assembly of the result, as a value and as the method that runs them. */
module Pipeline {
  import opened Types
  import opened Seqs
  import opened Slots
  import opened Topo
  import opened Placement
  import opened PlacementFacts
  import opened Ordering
  import opened Assembly
  import opened Scheduler

  /** The default bound of calculateRequiredWeeks: one year. */
  const DefaultMaxWeeks: int := 52

  /** `projects.find(p => p.filename === name)`, as the position of the first
      project with that filename. */
  function FindProject(projects: seq<Project>, name: string): (r: Option<nat>)
    ensures r.Some? ==> r.value < |projects| && projects[r.value].filename == name
                        && forall i :: 0 <= i < r.value ==> projects[i].filename != name
    ensures r.None? ==> forall i :: 0 <= i < |projects| ==> projects[i].filename != name
  {
    var named := seq(|projects|, i requires 0 <= i < |projects| => projects[i].filename == name);
    assert forall i :: 0 <= i < |projects| ==> named[i] == (projects[i].filename == name);
    FirstTrue(named, 0)
  }

  /** One project pass: scheduleProjectTasks on the project named `name`, or
      nothing (a count of 0) when no project has that filename. */
  function ProjectPass(infos: seq<SlotInfo>, b: Board, keys: set<string>, projects: seq<Project>,
                       name: string, kind: EventType): (r: Progress)
    requires Matches(infos, b)
    ensures Matches(infos, r.board)
  {
    match FindProject(projects, name)
    case None => Progress(b, keys, 0)
    case Some(i) => ScheduleProject(infos, b, keys, projects[i], kind)
  }

  /** The state after each pass of a run. */
  datatype Run = Run(infos: seq<SlotInfo>, routines: Board, focus: Progress, buffer: Progress)

  /** The passes of createSchedule over `weeks` weeks from day `start`:
      routines first, then the focus project, then the buffer project, which
      sees the keys the focus pass scheduled. */
  function RunPasses(projects: seq<Project>, routines: seq<Routine>, c: Config, start: int,
                     weeks: int): (r: Run)
    requires WellFormedConfig(c)
    ensures Matches(r.infos, r.routines) && Matches(r.infos, r.focus.board)
    ensures Matches(r.infos, r.buffer.board)
  {
    var infos := SlotInfos(c, DateRange(start, weeks));
    var b := PlaceRoutines(infos, EmptyBoard(infos), routines);
    var focus := ProjectPass(infos, b, {}, projects, c.focus, FocusEvent);
    var buffer := ProjectPass(infos, focus.board, focus.keys, projects, c.buffer, BufferEvent);
    Run(infos, b, focus, buffer)
  }

  /** The result of createSchedule. */
  ghost function CreateScheduleSpec(projects: seq<Project>, routines: seq<Routine>, c: Config,
                                    start: int, weeks: int): ScheduleResult
    requires WellFormedConfig(c)
  {
    var r := RunPasses(projects, routines, c, start, weeks);
    Assemble(projects, r.buffer.board.days, r.focus.count, r.buffer.count)
  }

  /** Lines 315-337 of createSchedule for one project: find it by filename
      and, when found, run scheduleProjectTasks on it; the count is 0
      otherwise. */
  method RunProjectPass(projects: seq<Project>, name: string, kind: EventType,
                        slots: seq<TimeSlot>, schedule: EventMap, scheduledTasks: KeySet)
    returns (count: nat)
    requires SlotsValid(slots)
    requires Matches(Infos(slots), State(slots, schedule))
    modifies slots, schedule, scheduledTasks
    ensures SlotsValid(slots)
    ensures Progress(State(slots, schedule), scheduledTasks.keys, count) ==
              ProjectPass(Infos(slots), old(State(slots, schedule)), old(scheduledTasks.keys),
                          projects, name, kind)
  {
    count := 0;
    var project := FindProject(projects, name);
    if project.Some? {
      count := ScheduleProjectTasks(projects[project.value], slots, schedule, kind, scheduledTasks);
    }
  }

  /** The passes of createSchedule on fresh slots, a fresh date map and a
      fresh key set. */
  method RunAll(projects: seq<Project>, routines: seq<Routine>, c: Config, start: int, weeks: int)
    returns (days: map<int, seq<ScheduledEvent>>, focusScheduled: nat, bufferScheduled: nat)
    requires WellFormedConfig(c)
    ensures var r := RunPasses(projects, routines, c, start, weeks);
            days == r.buffer.board.days && focusScheduled == r.focus.count
            && bufferScheduled == r.buffer.count
  {
    var dates := GetDateRange(start, weeks);
    var slots := CalculateAvailableSlots(c, dates);
    var schedule := new EventMap();
    var scheduledTasks := new KeySet();
    ghost var infos := Infos(slots);
    assert Loads(slots) == EmptyBoard(infos).loads;
    ghost var run := RunPasses(projects, routines, c, start, weeks);
    ScheduleRoutines(routines, slots, schedule);
    assert State(slots, schedule) == run.routines;
    focusScheduled := RunProjectPass(projects, c.focus, FocusEvent, slots, schedule, scheduledTasks);
    assert Progress(State(slots, schedule), scheduledTasks.keys, focusScheduled) == run.focus;
    ValidMatches(slots, State(slots, schedule));
    bufferScheduled := RunProjectPass(projects, c.buffer, BufferEvent, slots, schedule, scheduledTasks);
    days := schedule.days;
  }

  /** createSchedule: runs the passes, then lists the dates in ascending
      order, each with its events sorted by start, and sums up. */
  method CreateSchedule(projects: seq<Project>, routines: seq<Routine>, c: Config, start: int,
                        weeks: int) returns (result: ScheduleResult)
    requires WellFormedConfig(c)
    ensures result == CreateScheduleSpec(projects, routines, c, start, weeks)
  {
    var days, focusScheduled, bufferScheduled := RunAll(projects, routines, c, start, weeks);
    var sortedDates := SortDates(days.Keys);
    var daySchedules := seq(|sortedDates|, i requires 0 <= i < |sortedDates| =>
                          DaySchedule(sortedDates[i], SortByStart(DayEvents(days, sortedDates[i]))));
    var totalProjectTasks: int := TotalTasks(projects);
    var scheduled: int := focusScheduled + bufferScheduled;
    result := ScheduleResult(daySchedules,
                             Summary(totalProjectTasks, scheduled, totalProjectTasks - scheduled,
                                     RoundTenths(TotalMinutes(daySchedules))));
  }

  // ---------------------------------------------------------------- the summary counts

  lemma SubsetSize<T>(a: set<T>, b: set<T>)
    requires a <= b
    ensures |a| <= |b|
  {
    assert b == a + (b - a);
    assert a * (b - a) == {};
  }

  lemma DisjointUnionSize<T>(a: set<T>, b: set<T>)
    requires a * b == {}
    ensures |a + b| == |a| + |b|
  {
  }

  /** A project has at most as many keys as tasks. */
  lemma {:induction false} KeysOfSize(filename: string, tasks: seq<Task>)
    ensures |KeysOf(filename, tasks)| <= |tasks|
  {
    if tasks != [] {
      var init := tasks[..|tasks| - 1];
      var key := TaskKey(filename, tasks[|tasks| - 1].id);
      KeysOfSize(filename, init);
      assert KeysOf(filename, tasks) <= KeysOf(filename, init) + {key} by {
        forall k | k in KeysOf(filename, tasks)
          ensures k in KeysOf(filename, init) + {key}
        {
          var i :| 0 <= i < |tasks| && k == TaskKey(filename, tasks[i].id);
          if i < |tasks| - 1 {
            assert tasks[i] == init[i];
          }
        }
      }
      SubsetSize(KeysOf(filename, tasks), KeysOf(filename, init) + {key});
    }
  }

  /** A project pass counts exactly the keys it adds, and adds only keys of
      the tasks of the project it found. */
  lemma ProjectPassKeys(infos: seq<SlotInfo>, b: Board, keys: set<string>, projects: seq<Project>,
                        name: string, kind: EventType)
    requires Matches(infos, b)
    ensures var r := ProjectPass(infos, b, keys, projects, name, kind);
            keys <= r.keys && r.count == |r.keys - keys|
            && match FindProject(projects, name)
               case None => r.keys == keys
               case Some(i) => r.keys - keys <= KeysOf(name, projects[i].tasks)
  {
    match FindProject(projects, name)
    case None =>
    case Some(i) =>
      var p := projects[i];
      var sorted := TopoOrder(p.tasks);
      var r := ScheduleProject(infos, b, keys, p, kind);
      TasksKeys(infos, Progress(b, keys, 0), p.filename, kind, sorted);
      TopoOrderIsSelection(p.tasks);
      forall key | key in r.keys - keys
        ensures key in KeysOf(name, p.tasks)
      {
        var j :| 0 <= j < |sorted| && key == TaskKey(p.filename, sorted[j].id)
                 && DepsScheduled(r.keys, p.filename, sorted[j].dependencies);
        assert sorted[j] in p.tasks;
        var t :| 0 <= t < |p.tasks| && p.tasks[t] == sorted[j];
      }
  }

  /** The two passes never count more tasks than the projects hold, so
      `unscheduledTasks` is never negative: the keys both passes add are keys
      of the focus and the buffer project, and when both names find the same
      project, the buffer pass skips every task the focus pass placed. */
  lemma ScheduledWithinTotal(projects: seq<Project>, routines: seq<Routine>, c: Config, start: int,
                             weeks: int)
    requires WellFormedConfig(c)
    ensures var r := RunPasses(projects, routines, c, start, weeks);
            r.focus.count + r.buffer.count <= TotalTasks(projects)
  {
    var r := RunPasses(projects, routines, c, start, weeks);
    ProjectPassKeys(r.infos, r.routines, {}, projects, c.focus, FocusEvent);
    ProjectPassKeys(r.infos, r.focus.board, r.focus.keys, projects, c.buffer, BufferEvent);
    var kf := r.focus.keys;
    var added := r.buffer.keys - kf;
    var fi := FindProject(projects, c.focus);
    var bi := FindProject(projects, c.buffer);
    if fi.Some? {
      assert kf - {} == kf;
      SubsetSize(kf, KeysOf(c.focus, projects[fi.value].tasks));
      KeysOfSize(c.focus, projects[fi.value].tasks);
      TotalTasksCovers(projects, fi.value, fi.value);
    }
    if bi.Some? {
      SubsetSize(added, KeysOf(c.buffer, projects[bi.value].tasks));
      KeysOfSize(c.buffer, projects[bi.value].tasks);
      TotalTasksCovers(projects, bi.value, bi.value);
    }
    if fi.Some? && bi.Some? {
      if fi.value == bi.value {
        DisjointUnionSize(kf, added);
        SubsetSize(kf + added, KeysOf(c.focus, projects[fi.value].tasks));
      } else {
        TotalTasksCovers(projects, fi.value, bi.value);
      }
    }
  }

  /** The summary adds up: the scheduled and the unscheduled tasks make the
      total, and neither is negative. */
  lemma SummaryAddsUp(projects: seq<Project>, routines: seq<Routine>, c: Config, start: int,
                      weeks: int)
    requires WellFormedConfig(c)
    ensures var s := CreateScheduleSpec(projects, routines, c, start, weeks).summary;
            s.totalTasks == TotalTasks(projects)
            && 0 <= s.scheduledTasks && 0 <= s.unscheduledTasks
            && s.scheduledTasks + s.unscheduledTasks == s.totalTasks
  {
    ScheduledWithinTotal(projects, routines, c, start, weeks);
  }

  // ---------------------------------------------------------------- the events of a run

  /** A project pass keeps the board sound. */
  lemma ProjectPassSound(infos: seq<SlotInfo>, b: Board, keys: set<string>, projects: seq<Project>,
                         name: string, kind: EventType)
    requires Sound(infos, b) && kind != RoutineEvent
    ensures Sound(infos, ProjectPass(infos, b, keys, projects, name, kind).board)
  {
    var found := FindProject(projects, name);
    if found.Some? {
      var p := projects[found.value];
      TasksSound(infos, Progress(b, keys, 0), p.filename, kind, TopoOrder(p.tasks));
    }
  }

  /** Every pass keeps the board sound: no slot overfilled, every event with
      readable times on the date of a slot, no routine twice on one date. */
  lemma RunSound(projects: seq<Project>, routines: seq<Routine>, c: Config, start: int, weeks: int)
    requires WellFormedConfig(c)
    ensures var r := RunPasses(projects, routines, c, start, weeks);
            Sound(r.infos, r.routines) && Sound(r.infos, r.focus.board)
            && Sound(r.infos, r.buffer.board)
  {
    var r := RunPasses(projects, routines, c, start, weeks);
    EmptySound(r.infos);
    RoutinesSound(r.infos, EmptyBoard(r.infos), routines);
    ProjectPassSound(r.infos, r.routines, {}, projects, c.focus, FocusEvent);
    ProjectPassSound(r.infos, r.focus.board, r.focus.keys, projects, c.buffer, BufferEvent);
  }

  /** Every date of the result lies in the requested range, the dates
      ascend, and each date's events are in start order. */
  lemma ScheduleInRange(projects: seq<Project>, routines: seq<Routine>, c: Config, start: int,
                        weeks: int)
    requires WellFormedConfig(c)
    ensures var s := CreateScheduleSpec(projects, routines, c, start, weeks).schedule;
            (forall i :: 0 <= i < |s| ==> start <= s[i].date < start + 7 * weeks)
            && (forall i, j :: 0 <= i < j < |s| ==> s[i].date < s[j].date)
            && forall i :: 0 <= i < |s| ==> SortedBy(s[i].events, StartKey)
  {
    var r := RunPasses(projects, routines, c, start, weeks);
    var days := r.buffer.board.days;
    var s := DaySchedules(days);
    RunSound(projects, routines, c, start, weeks);
    DaySchedulesDates(days);
    DateRangeShape(start, weeks);
    var dates := DateRange(start, weeks);
    forall i | 0 <= i < |s|
      ensures start <= s[i].date < start + 7 * weeks && SortedBy(s[i].events, StartKey)
    {
      DayScheduleEvents(days, i);
      var k :| 0 <= k < |r.infos| && r.infos[k].date == s[i].date;
      var n :| 0 <= n < |dates| && dates[n] == r.infos[k].date;
    }
  }

  /** With no weeks there are no slots, so nothing is scheduled and every
      task counts as unscheduled. */
  lemma ZeroWeeks(projects: seq<Project>, routines: seq<Routine>, c: Config, start: int, weeks: int)
    requires WellFormedConfig(c) && weeks <= 0
    ensures var result := CreateScheduleSpec(projects, routines, c, start, weeks);
            result.schedule == [] && result.summary.scheduledTasks == 0
            && result.summary.unscheduledTasks == TotalTasks(projects)
  {
    var r := RunPasses(projects, routines, c, start, weeks);
    NoDaysNoSlots(c, start, weeks);
    RunSound(projects, routines, c, start, weeks);
    NoSlotsNoDates(r.infos, r.buffer.board.days);
    SortedDatesFacts(r.buffer.board.days.Keys);
    ProjectPassKeys(r.infos, r.routines, {}, projects, c.focus, FocusEvent);
    ProjectPassKeys(r.infos, r.focus.board, r.focus.keys, projects, c.buffer, BufferEvent);
    NoSlotsNoKeys(r.infos, r.routines, {}, projects, c.focus, FocusEvent);
    NoSlotsNoKeys(r.infos, r.focus.board, r.focus.keys, projects, c.buffer, BufferEvent);
  }

  /** Without slots no date has events. */
  lemma NoSlotsNoDates(infos: seq<SlotInfo>, days: map<int, seq<ScheduledEvent>>)
    requires infos == [] && OnSlotDates(infos, days)
    ensures days.Keys == {}
  {
    if days.Keys != {} {
      var date := Pick(days.Keys);
      assert false;
    }
  }

  /** Without slots a project pass places nothing. */
  lemma NoSlotsNoKeys(infos: seq<SlotInfo>, b: Board, keys: set<string>, projects: seq<Project>,
                      name: string, kind: EventType)
    requires Matches(infos, b) && infos == []
    ensures ProjectPass(infos, b, keys, projects, name, kind).count == 0
  {
    match FindProject(projects, name)
    case None =>
    case Some(i) =>
      NoSlotsNoTasks(infos, Progress(b, keys, 0), projects[i].filename, kind,
                     TopoOrder(projects[i].tasks));
  }

  lemma {:induction false} NoSlotsNoTasks(infos: seq<SlotInfo>, p: Progress, filename: string,
                                          kind: EventType, tasks: seq<Task>)
    requires Matches(infos, p.board) && infos == []
    ensures PlaceTasks(infos, p, filename, kind, tasks) == p
  {
    if tasks != [] {
      NoSlotsNoTasks(infos, p, filename, kind, tasks[..|tasks| - 1]);
      assert TaskSlot(infos, p.board, tasks[|tasks| - 1]) == None;
    }
  }

  // ---------------------------------------------------------------- required weeks

  /** `projects.reduce((sum, p) => sum + p.tasks.reduce((s, t) => s + t.duration, 0), 0)`. */
  function TaskMinutes(tasks: seq<Task>): nat
  {
    if tasks == [] then 0 else TaskMinutes(tasks[..|tasks| - 1]) + tasks[|tasks| - 1].duration
  }

  function TotalDuration(projects: seq<Project>): nat
  {
    if projects == [] then 0
    else TotalDuration(projects[..|projects| - 1]) + TaskMinutes(projects[|projects| - 1].tasks)
  }

  /** Every task is placed within `weeks` weeks. */
  ghost predicate AllPlaced(projects: seq<Project>, routines: seq<Routine>, c: Config, start: int,
                            weeks: int)
    requires WellFormedConfig(c)
  {
    CreateScheduleSpec(projects, routines, c, start, weeks).summary.unscheduledTasks == 0
  }

  /** One trial of calculateRequiredWeeks: a full createSchedule over
      `weeks` weeks, asked whether it left no task unscheduled. */
  method PlacesAll(projects: seq<Project>, routines: seq<Routine>, c: Config, start: int,
                   weeks: int) returns (placedAll: bool)
    requires WellFormedConfig(c)
    ensures placedAll == AllPlaced(projects, routines, c, start, weeks)
  {
    var result := CreateSchedule(projects, routines, c, start, weeks);
    placedAll := result.summary.unscheduledTasks == 0;
  }

  /** The trial of each number of weeks. */
  ghost function Trial(projects: seq<Project>, routines: seq<Routine>, c: Config, start: int): int -> bool
    requires WellFormedConfig(c)
  {
    w => AllPlaced(projects, routines, c, start, w)
  }

  /** No trial with fewer than `weeks` weeks succeeds. */
  ghost predicate NoneBefore(trial: int -> bool, weeks: int)
  {
    forall w :: 1 <= w < weeks ==> !trial(w)
  }

  lemma NoneBeforeExtend(trial: int -> bool, weeks: int)
    requires NoneBefore(trial, weeks) && !trial(weeks)
    ensures NoneBefore(trial, weeks + 1)
  {
  }

  /** calculateRequiredWeeks: tries 1, 2, ... up to `maxWeeks` weeks and
      returns the first that places every task, or `maxWeeks` (a year when
      the caller does not say) when none does;
      the totals count every task and its minutes, placed or not. */
  method CalculateRequiredWeeks(projects: seq<Project>, routines: seq<Routine>, c: Config,
                                start: int, maxWeeks: int := DefaultMaxWeeks) returns (e: Estimate)
    requires WellFormedConfig(c)
    ensures e.totalTasks == TotalTasks(projects)
    ensures e.totalTenthHours == RoundTenths(TotalDuration(projects))
    ensures var trial := Trial(projects, routines, c, start);
            (1 <= e.requiredWeeks <= maxWeeks && trial(e.requiredWeeks) && NoneBefore(trial, e.requiredWeeks))
            || (e.requiredWeeks == maxWeeks && NoneBefore(trial, maxWeeks + 1))
  {
    var weeks := SearchWeeks(projects, routines, c, start, maxWeeks);
    var totalProjectTasks := TotalTasks(projects);
    var totalMinutes := TotalDuration(projects);
    e := Estimate(weeks, totalProjectTasks, RoundTenths(totalMinutes));
  }

  /** The loop of calculateRequiredWeeks: the first trial that places every
      task, or `maxWeeks` when none does. */
  method SearchWeeks(projects: seq<Project>, routines: seq<Routine>, c: Config, start: int,
                     maxWeeks: int) returns (weeks: int)
    requires WellFormedConfig(c)
    ensures var trial := Trial(projects, routines, c, start);
            (1 <= weeks <= maxWeeks && trial(weeks) && NoneBefore(trial, weeks))
            || (weeks == maxWeeks && NoneBefore(trial, maxWeeks + 1))
  {
    ghost var trial := Trial(projects, routines, c, start);
    weeks := 1;
    while weeks <= maxWeeks
      invariant 1 <= weeks && (weeks <= maxWeeks + 1 || maxWeeks < 1)
      invariant NoneBefore(trial, weeks)
      decreases maxWeeks - weeks
    {
      var placedAll := PlacesAll(projects, routines, c, start, weeks);
      assert placedAll == trial(weeks);
      if placedAll {
        return;
      }
      NoneBeforeExtend(trial, weeks);
      weeks := weeks + 1;
    }
    weeks := maxWeeks;
  }
}
