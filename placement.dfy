/** The two placement passes of scheduler.ts on values: scheduleRoutines and
    scheduleProjectTasks as folds over the run's state, which is the list of
    placements of each slot and the events of each date. The methods of
    module Scheduler are proved to compute exactly these folds. */
module Placement {
  import opened Types
  import opened Clock
  import opened Seqs
  import opened Slots
  import opened Topo

  // ---------------------------------------------------------------- the state

  /** The state the passes change: for slot k, the durations placed into it
      in order (its `used` is their sum); for each date, its events. */
  datatype Board = Board(loads: seq<seq<nat>>, days: map<int, seq<ScheduledEvent>>)

  /** `schedule.get(date) || []`. */
  function DayEvents(days: map<int, seq<ScheduledEvent>>, date: int): seq<ScheduledEvent>
  {
    if date in days then days[date] else []
  }

  /** The board has one load per slot, and every slot start is readable. */
  predicate Matches(infos: seq<SlotInfo>, b: Board)
  {
    |b.loads| == |infos| && forall k :: 0 <= k < |infos| ==> IsClock(infos[k].start)
  }

  /** The board of a fresh run: no slot used, no events. */
  function EmptyBoard(infos: seq<SlotInfo>): (b: Board)
    ensures |b.loads| == |infos|
  {
    Board(seq(|infos|, k => []), map[])
  }

  /** The event a slot yields for its next placement (scheduleInSlot). */
  function NextEvent(infos: seq<SlotInfo>, b: Board, k: nat, duration: nat, title: string,
                     kind: EventType, source: string, taskId: Option<string>): ScheduledEvent
    requires Matches(infos, b) && k < |infos|
  {
    SlotEvent(infos[k], Sum(b.loads[k]), duration, title, kind, source, taskId)
  }

  /** scheduleInSlot on slot k followed by the push of its event onto the
      slot's date. */
  function Place(infos: seq<SlotInfo>, b: Board, k: nat, duration: nat, e: ScheduledEvent): (r: Board)
    requires Matches(infos, b) && k < |infos|
    ensures Matches(infos, r)
  {
    Board(b.loads[k := b.loads[k] + [duration]],
          b.days[infos[k].date := DayEvents(b.days, infos[k].date) + [e]])
  }

  // ---------------------------------------------------------------- routines

  /** `dayEvents.some(e => e.title === title && e.type === 'routine')`. */
  predicate HasRoutine(events: seq<ScheduledEvent>, title: string)
  {
    exists i :: 0 <= i < |events| && events[i].title == title && events[i].kind == RoutineEvent
  }

  /** The tests a slot passes before a routine task goes into it: the task
      repeats on the slot's weekday, the slot starts at the preferred time if
      there is one, the task fits, and the day has no routine event of that
      title yet. */
  predicate RoutineFits(info: SlotInfo, load: seq<nat>, days: map<int, seq<ScheduledEvent>>,
                        task: RoutineTask, preferred: Option<string>)
  {
    DayName(info.date) in task.repeat
    && (preferred.Some? ==> info.start == preferred.value)
    && CanFitInSlot(info, Sum(load), task.duration)
    && !HasRoutine(DayEvents(days, info.date), task.name)
  }

  /** The first slot that passes the routine tests. */
  function RoutineSlot(infos: seq<SlotInfo>, b: Board, task: RoutineTask,
                       preferred: Option<string>): Option<nat>
    requires Matches(infos, b)
  {
    FirstTrue(RoutineTests(infos, b, task, preferred), 0)
  }

  /** The outcome of the routine tests on each slot. */
  function RoutineTests(infos: seq<SlotInfo>, b: Board, task: RoutineTask,
                        preferred: Option<string>): (bs: seq<bool>)
    requires Matches(infos, b)
    ensures |bs| == |infos|
    ensures forall k :: 0 <= k < |infos| ==>
              bs[k] == RoutineFits(infos[k], b.loads[k], b.days, task, preferred)
  {
    seq(|infos|, k requires 0 <= k < |infos| =>
      RoutineFits(infos[k], b.loads[k], b.days, task, preferred))
  }

  /** One routine task: placed into the first slot that passes, and only
      there (the loop breaks after the first placement). */
  function PlaceRoutineTask(infos: seq<SlotInfo>, b: Board, source: string,
                            task: RoutineTask): (r: Board)
    requires Matches(infos, b)
    ensures Matches(infos, r)
  {
    var preferred := ResolvePreferredTime(task.preferredTime);
    match RoutineSlot(infos, b, task, preferred)
    case None => b
    case Some(k) =>
      Place(infos, b, k, task.duration,
            NextEvent(infos, b, k, task.duration, task.name, RoutineEvent, source, None))
  }

  /** The tasks of one routine, in order. */
  function PlaceRoutineTasks(infos: seq<SlotInfo>, b: Board, source: string,
                             tasks: seq<RoutineTask>): (r: Board)
    requires Matches(infos, b)
    ensures Matches(infos, r)
  {
    if tasks == [] then b
    else PlaceRoutineTask(infos, PlaceRoutineTasks(infos, b, source, tasks[..|tasks| - 1]),
                          source, tasks[|tasks| - 1])
  }

  /** scheduleRoutines: every routine, in order; the event source is the
      routine's filename. */
  function PlaceRoutines(infos: seq<SlotInfo>, b: Board, routines: seq<Routine>): (r: Board)
    requires Matches(infos, b)
    ensures Matches(infos, r)
  {
    if routines == [] then b
    else
      var last := routines[|routines| - 1];
      PlaceRoutineTasks(infos, PlaceRoutines(infos, b, routines[..|routines| - 1]),
                        last.filename, last.tasks)
  }

  // ---------------------------------------------------------------- project tasks

  /** `${project.filename}#${task.id}`. */
  function TaskKey(filename: string, id: string): string
  {
    filename + "#" + id
  }

  /** Within one project, two keys are equal exactly when the ids are. */
  lemma TaskKeyInjective(filename: string, a: string, b: string)
    ensures TaskKey(filename, a) == TaskKey(filename, b) <==> a == b
  {
    if TaskKey(filename, a) == TaskKey(filename, b) {
      var n := |filename| + 1;
      assert a == TaskKey(filename, a)[n..];
      assert b == TaskKey(filename, b)[n..];
    }
  }

  /** `task.dependencies.every(depId => scheduledTasks.has(key(depId)))`. */
  predicate DepsScheduled(keys: set<string>, filename: string, deps: seq<string>)
  {
    forall j :: 0 <= j < |deps| ==> TaskKey(filename, deps[j]) in keys
  }

  /** The tests a slot passes before a project task goes into it: the task
      fits, the slot suits its block type, and a `long` task finds at least
      180 free minutes. */
  predicate TaskFits(info: SlotInfo, load: seq<nat>, task: Task)
  {
    CanFitInSlot(info, Sum(load), task.duration)
    && IsSlotSuitableForBlockType(info, Sum(load), task.blockType)
    && !(task.blockType == Long && info.duration - Sum(load) < 180)
  }

  /** The first slot that passes the project-task tests. */
  function TaskSlot(infos: seq<SlotInfo>, b: Board, task: Task): Option<nat>
    requires Matches(infos, b)
  {
    FirstTrue(TaskTests(infos, b, task), 0)
  }

  /** The outcome of the project-task tests on each slot. */
  function TaskTests(infos: seq<SlotInfo>, b: Board, task: Task): (bs: seq<bool>)
    requires Matches(infos, b)
    ensures |bs| == |infos|
    ensures forall k :: 0 <= k < |infos| ==> bs[k] == TaskFits(infos[k], b.loads[k], task)
  {
    seq(|infos|, k requires 0 <= k < |infos| => TaskFits(infos[k], b.loads[k], task))
  }

  /** The project pass's state: the board, the `scheduledTasks` key set, and
      the number of tasks this pass has placed. */
  datatype Progress = Progress(board: Board, keys: set<string>, count: nat)

  /** One project task: skipped when its key is already scheduled, or when it
      has dependencies and one of their keys is not; otherwise placed into the
      first slot that passes, its key recorded and the count raised. */
  function PlaceTask(infos: seq<SlotInfo>, p: Progress, filename: string, kind: EventType,
                     task: Task): (r: Progress)
    requires Matches(infos, p.board)
    ensures Matches(infos, r.board)
  {
    var key := TaskKey(filename, task.id);
    if key in p.keys then p
    else if !DepsScheduled(p.keys, filename, task.dependencies) && |task.dependencies| > 0 then p
    else
      match TaskSlot(infos, p.board, task)
      case None => p
      case Some(k) =>
        var e := NextEvent(infos, p.board, k, task.duration, task.name, kind, filename, Some(task.id));
        Progress(Place(infos, p.board, k, task.duration, e), p.keys + {key}, p.count + 1)
  }

  /** The tasks of one project, in the given order. */
  function PlaceTasks(infos: seq<SlotInfo>, p: Progress, filename: string, kind: EventType,
                      tasks: seq<Task>): (r: Progress)
    requires Matches(infos, p.board)
    ensures Matches(infos, r.board)
  {
    if tasks == [] then p
    else PlaceTask(infos, PlaceTasks(infos, p, filename, kind, tasks[..|tasks| - 1]),
                   filename, kind, tasks[|tasks| - 1])
  }

  /** scheduleProjectTasks: the project's tasks in topological order; the
      count starts from zero. */
  function ScheduleProject(infos: seq<SlotInfo>, b: Board, keys: set<string>, project: Project,
                           kind: EventType): (r: Progress)
    requires Matches(infos, b)
    ensures Matches(infos, r.board)
  {
    PlaceTasks(infos, Progress(b, keys, 0), project.filename, kind, TopoOrder(project.tasks))
  }
}
