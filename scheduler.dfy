/** The placement passes of scheduler.ts as they run: loops over the shared
    TimeSlot objects, the `schedule` map from date to events and the
    `scheduledTasks` key set, each proved to compute the fold of module
    Placement. */
module Scheduler {
  import opened Types
  import opened Clock
  import opened Seqs
  import opened Slots
  import opened Topo
  import opened Placement

  /** `schedule`: the events of each date, filled in place. */
  class EventMap {
    var days: map<int, seq<ScheduledEvent>>

    constructor ()
      ensures days == map[]
    {
      days := map[];
    }

    /** `schedule.get(date) || []`. */
    function Get(date: int): seq<ScheduledEvent>
      reads this
    {
      DayEvents(days, date)
    }

    /** Create the date's list when missing, then push the event. */
    method Push(date: int, e: ScheduledEvent)
      modifies this
      ensures days == old(days)[date := DayEvents(old(days), date) + [e]]
    {
      if date !in days {
        days := days[date := []];
      }
      days := days[date := days[date] + [e]];
    }
  }

  /** `scheduledTasks`: the keys of the project tasks placed so far. */
  class KeySet {
    var keys: set<string>

    constructor ()
      ensures keys == {}
    {
      keys := {};
    }

    function Has(key: string): bool
      reads this
    {
      key in keys
    }

    method Add(key: string)
      modifies this
      ensures keys == old(keys) + {key}
    {
      keys := keys + {key};
    }
  }

  /** The state of the run as a value. */
  ghost function State(slots: seq<TimeSlot>, schedule: EventMap): Board
    reads slots, schedule
  {
    Board(Loads(slots), schedule.days)
  }

  /** Valid slots give a board the placement folds accept. */
  lemma ValidMatches(slots: seq<TimeSlot>, b: Board)
    requires SlotsValid(slots) && |b.loads| == |slots|
    ensures Matches(Infos(slots), b)
  {
    forall k | 0 <= k < |slots|
      ensures IsClock(Infos(slots)[k].start)
    {
      assert slots[k].Valid();
    }
  }

  /** scheduleInSlot on `slots[k]` and the push of its event, as a change of
      the board. */
  method PlaceIn(slots: seq<TimeSlot>, k: nat, schedule: EventMap, duration: nat, title: string,
                 kind: EventType, source: string, taskId: Option<string>)
    requires SlotsValid(slots) && k < |slots|
    modifies slots, schedule
    ensures SlotsValid(slots)
    ensures Matches(Infos(slots), old(State(slots, schedule)))
    ensures State(slots, schedule) ==
              Place(Infos(slots), old(State(slots, schedule)), k, duration,
                    NextEvent(Infos(slots), old(State(slots, schedule)), k, duration, title, kind,
                              source, taskId))
  {
    ValidMatches(slots, State(slots, schedule));
    ghost var b0 := State(slots, schedule);
    var slot := slots[k];
    var e := ScheduleInSlot(slot, duration, title, kind, source, taskId);
    schedule.Push(slot.date, e);
    assert Loads(slots) == b0.loads[k := b0.loads[k] + [duration]];
  }

  /** The slot scan of scheduleRoutines for one task: test the slots in
      order, skipping each that fails a test, and stop at the first that
      passes. */
  method FindRoutineSlot(task: RoutineTask, preferred: Option<string>, slots: seq<TimeSlot>,
                         schedule: EventMap) returns (found: Option<nat>)
    requires SlotsValid(slots)
    requires Matches(Infos(slots), State(slots, schedule))
    ensures found == RoutineSlot(Infos(slots), State(slots, schedule), task, preferred)
  {
    ghost var infos := Infos(slots);
    ghost var b0 := State(slots, schedule);
    ghost var bs := RoutineTests(infos, b0, task, preferred);
    for k := 0 to |slots|
      invariant forall j :: 0 <= j < k ==> !bs[j]
    {
      assert slots[k].Valid() && slots[k].Info() == infos[k] && slots[k].placed == b0.loads[k];
      var fits := RoutineFitsSlot(slots[k], task, preferred, schedule);
      if fits {
        FirstTrueAt(bs, k);
        return Some(k);
      }
    }
    FirstTrueNone(bs);
    return None;
  }

  /** The tests of the scan on one slot, in the source's order: a slot that
      fails one is skipped. */
  method RoutineFitsSlot(slot: TimeSlot, task: RoutineTask, preferred: Option<string>,
                         schedule: EventMap) returns (fits: bool)
    requires slot.Valid()
    ensures fits == RoutineFits(slot.Info(), slot.placed, schedule.days, task, preferred)
  {
    if DayName(slot.date) !in task.repeat {
      return false;
    }
    if preferred.Some? && slot.start != preferred.value {
      return false;
    }
    if !CanFitInSlot(slot.Info(), slot.used, task.duration) {
      return false;
    }
    var dayEvents := schedule.Get(slot.date);
    if HasRoutine(dayEvents, task.name) {
      return false;
    }
    return true;
  }

  /** The body of scheduleRoutines for one task: the first slot that passes
      every test gets the task, and the scan stops there. */
  method ScheduleRoutineTask(task: RoutineTask, source: string, slots: seq<TimeSlot>,
                             schedule: EventMap)
    requires SlotsValid(slots)
    requires Matches(Infos(slots), State(slots, schedule))
    modifies slots, schedule
    ensures SlotsValid(slots)
    ensures State(slots, schedule) ==
              PlaceRoutineTask(Infos(slots), old(State(slots, schedule)), source, task)
  {
    var preferred := ResolvePreferredTime(task.preferredTime);
    var found := FindRoutineSlot(task, preferred, slots, schedule);
    if found.Some? {
      PlaceIn(slots, found.value, schedule, task.duration, task.name, RoutineEvent, source, None);
    }
  }

  /** scheduleRoutines: every task of every routine, in order. */
  method ScheduleRoutines(routines: seq<Routine>, slots: seq<TimeSlot>, schedule: EventMap)
    requires SlotsValid(slots)
    modifies slots, schedule
    ensures SlotsValid(slots)
    ensures Matches(Infos(slots), old(State(slots, schedule)))
    ensures State(slots, schedule) ==
              PlaceRoutines(Infos(slots), old(State(slots, schedule)), routines)
  {
    ghost var infos := Infos(slots);
    ghost var b0 := State(slots, schedule);
    ValidMatches(slots, b0);
    for i := 0 to |routines|
      invariant SlotsValid(slots)
      invariant State(slots, schedule) == PlaceRoutines(infos, b0, routines[..i])
    {
      ScheduleRoutineTasks(routines[i], slots, schedule);
      assert routines[..i + 1][..i] == routines[..i];
    }
    assert routines[..|routines|] == routines;
  }

  /** The inner loop of scheduleRoutines: the tasks of one routine, in
      order. */
  method ScheduleRoutineTasks(routine: Routine, slots: seq<TimeSlot>, schedule: EventMap)
    requires SlotsValid(slots)
    modifies slots, schedule
    ensures SlotsValid(slots)
    ensures Matches(Infos(slots), old(State(slots, schedule)))
    ensures State(slots, schedule) ==
              PlaceRoutineTasks(Infos(slots), old(State(slots, schedule)), routine.filename, routine.tasks)
  {
    ghost var infos := Infos(slots);
    ghost var b0 := State(slots, schedule);
    ValidMatches(slots, b0);
    for j := 0 to |routine.tasks|
      invariant SlotsValid(slots)
      invariant State(slots, schedule) == PlaceRoutineTasks(infos, b0, routine.filename, routine.tasks[..j])
    {
      ValidMatches(slots, State(slots, schedule));
      ScheduleRoutineTask(routine.tasks[j], routine.filename, slots, schedule);
      assert routine.tasks[..j + 1][..j] == routine.tasks[..j];
    }
    assert routine.tasks[..|routine.tasks|] == routine.tasks;
  }

  /** The slot scan of scheduleProjectTasks: the first slot that fits the
      task, suits its block type and, for `long`, has 180 free minutes. */
  method FindTaskSlot(task: Task, slots: seq<TimeSlot>, schedule: EventMap) returns (found: Option<nat>)
    requires SlotsValid(slots)
    requires Matches(Infos(slots), State(slots, schedule))
    ensures found == TaskSlot(Infos(slots), State(slots, schedule), task)
  {
    ghost var infos := Infos(slots);
    ghost var b0 := State(slots, schedule);
    ghost var bs := TaskTests(infos, b0, task);
    for k := 0 to |slots|
      invariant forall j :: 0 <= j < k ==> !bs[j]
    {
      var slot := slots[k];
      assert slot.Valid() && slot.Info() == infos[k] && slot.placed == b0.loads[k];
      if !CanFitInSlot(slot.Info(), slot.used, task.duration) {
        continue;
      }
      if !IsSlotSuitableForBlockType(slot.Info(), slot.used, task.blockType) {
        continue;
      }
      if task.blockType == Long && slot.duration - slot.used < 180 {
        continue;
      }
      FirstTrueAt(bs, k);
      return Some(k);
    }
    FirstTrueNone(bs);
    return None;
  }

  /** The slot loop of scheduleProjectTasks: the slot the scan finds gets
      the task; the loop stops there. */
  method PlaceInFirstSlot(task: Task, filename: string, kind: EventType, slots: seq<TimeSlot>,
                          schedule: EventMap) returns (placed: bool)
    requires SlotsValid(slots)
    requires Matches(Infos(slots), State(slots, schedule))
    modifies slots, schedule
    ensures SlotsValid(slots)
    ensures var infos := Infos(slots);
            var b0 := old(State(slots, schedule));
            match TaskSlot(infos, b0, task)
            case None => !placed && State(slots, schedule) == b0
            case Some(k) =>
              placed && State(slots, schedule) ==
                Place(infos, b0, k, task.duration,
                      NextEvent(infos, b0, k, task.duration, task.name, kind, filename, Some(task.id)))
  {
    var found := FindTaskSlot(task, slots, schedule);
    placed := found.Some?;
    if placed {
      PlaceIn(slots, found.value, schedule, task.duration, task.name, kind, filename, Some(task.id));
    }
  }

  /** The body of scheduleProjectTasks for one task: skip it when its key is
      already scheduled, or when it has dependencies and one of their keys is
      not; otherwise look for a slot, and on success record the key and count
      the task. */
  method ScheduleProjectTask(task: Task, filename: string, kind: EventType, slots: seq<TimeSlot>,
                             schedule: EventMap, scheduledTasks: KeySet, scheduled: nat)
    returns (count: nat)
    requires SlotsValid(slots)
    requires Matches(Infos(slots), State(slots, schedule))
    modifies slots, schedule, scheduledTasks
    ensures SlotsValid(slots)
    ensures Progress(State(slots, schedule), scheduledTasks.keys, count) ==
              PlaceTask(Infos(slots),
                        Progress(old(State(slots, schedule)), old(scheduledTasks.keys), scheduled),
                        filename, kind, task)
  {
    count := scheduled;
    var taskKey := TaskKey(filename, task.id);
    if scheduledTasks.Has(taskKey) {
      return;
    }
    var depsScheduled := DepsScheduled(scheduledTasks.keys, filename, task.dependencies);
    if !depsScheduled && |task.dependencies| > 0 {
      return;
    }
    ghost var p0 := Progress(State(slots, schedule), scheduledTasks.keys, scheduled);
    PlaceTaskTried(Infos(slots), p0, filename, kind, task);
    var placed := PlaceInFirstSlot(task, filename, kind, slots, schedule);
    if placed {
      scheduledTasks.Add(taskKey);
      count := count + 1;
    }
  }

  /** A task neither scheduled nor waiting for a dependency goes into the
      slot the scan finds, if any. */
  lemma PlaceTaskTried(infos: seq<SlotInfo>, p: Progress, filename: string, kind: EventType, task: Task)
    requires Matches(infos, p.board)
    requires TaskKey(filename, task.id) !in p.keys
    requires DepsScheduled(p.keys, filename, task.dependencies) || |task.dependencies| == 0
    ensures PlaceTask(infos, p, filename, kind, task) ==
              match TaskSlot(infos, p.board, task)
              case None => p
              case Some(k) =>
                Progress(Place(infos, p.board, k, task.duration,
                               NextEvent(infos, p.board, k, task.duration, task.name, kind, filename, Some(task.id))),
                         p.keys + {TaskKey(filename, task.id)}, p.count + 1)
  {
  }

  /** scheduleProjectTasks: the project's tasks in topological order; returns
      how many it placed. */
  method ScheduleProjectTasks(project: Project, slots: seq<TimeSlot>, schedule: EventMap,
                              kind: EventType, scheduledTasks: KeySet) returns (scheduled: nat)
    requires SlotsValid(slots)
    modifies slots, schedule, scheduledTasks
    ensures SlotsValid(slots)
    ensures Matches(Infos(slots), old(State(slots, schedule)))
    ensures Progress(State(slots, schedule), scheduledTasks.keys, scheduled) ==
              ScheduleProject(Infos(slots), old(State(slots, schedule)), old(scheduledTasks.keys),
                              project, kind)
  {
    ghost var infos := Infos(slots);
    ghost var p0 := Progress(State(slots, schedule), scheduledTasks.keys, 0);
    ValidMatches(slots, p0.board);
    var sortedTasks := TopologicalSort(project.tasks);
    scheduled := 0;
    for i := 0 to |sortedTasks|
      invariant SlotsValid(slots)
      invariant Progress(State(slots, schedule), scheduledTasks.keys, scheduled) ==
                  PlaceTasks(infos, p0, project.filename, kind, sortedTasks[..i])
    {
      ValidMatches(slots, State(slots, schedule));
      scheduled := ScheduleProjectTask(sortedTasks[i], project.filename, kind, slots, schedule,
                                       scheduledTasks, scheduled);
      assert sortedTasks[..i + 1][..i] == sortedTasks[..i];
    }
    assert sortedTasks[..|sortedTasks|] == sortedTasks;
  }
}
