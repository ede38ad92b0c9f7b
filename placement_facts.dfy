/** What the placement passes guarantee: no slot is filled past its length,
    every event carries readable times and lies on a slot's date, a routine
    appears at most once per date, and a project task is placed only after
    the tasks it depends on. */
module PlacementFacts {
  import opened Types
  import opened Clock
  import opened Seqs
  import opened Slots
  import opened Topo
  import opened Placement

  // ---------------------------------------------------------------- invariants

  /** What a slot can take: its length, or nothing when the range runs
      backwards. */
  function Capacity(info: SlotInfo): nat
  {
    if info.duration < 0 then 0 else info.duration
  }

  predicate WithinCapacity(infos: seq<SlotInfo>, b: Board)
    requires |b.loads| == |infos|
  {
    forall k :: 0 <= k < |infos| ==> Sum(b.loads[k]) <= Capacity(infos[k])
  }

  /** Every event's start and end are "HH:MM" times as minutesToTime writes
      them. */
  predicate EventsCanonical(days: map<int, seq<ScheduledEvent>>)
  {
    forall date :: date in days ==>
      forall i :: 0 <= i < |days[date]| ==>
        IsCanonicalClock(days[date][i].start) && IsCanonicalClock(days[date][i].end)
  }

  /** Every date with events is the date of some slot. */
  predicate OnSlotDates(infos: seq<SlotInfo>, days: map<int, seq<ScheduledEvent>>)
  {
    forall date :: date in days ==> exists k :: 0 <= k < |infos| && infos[k].date == date
  }

  /** No date holds two routine events with one title. */
  predicate RoutinesOncePerDay(days: map<int, seq<ScheduledEvent>>)
  {
    forall date :: date in days ==>
      forall i, j :: 0 <= i < j < |days[date]| && days[date][i].kind == RoutineEvent
                     && days[date][j].kind == RoutineEvent ==>
        days[date][i].title != days[date][j].title
  }

  predicate Sound(infos: seq<SlotInfo>, b: Board)
  {
    Matches(infos, b) && WithinCapacity(infos, b) && EventsCanonical(b.days)
    && OnSlotDates(infos, b.days) && RoutinesOncePerDay(b.days)
  }

  /** A fresh run starts sound. */
  lemma EmptySound(infos: seq<SlotInfo>)
    requires forall k :: 0 <= k < |infos| ==> IsClock(infos[k].start)
    ensures Sound(infos, EmptyBoard(infos))
  {
  }

  lemma PlaceKeepsCapacity(infos: seq<SlotInfo>, b: Board, k: nat, d: nat, e: ScheduledEvent)
    requires Matches(infos, b) && WithinCapacity(infos, b) && k < |infos|
    requires CanFitInSlot(infos[k], Sum(b.loads[k]), d)
    ensures WithinCapacity(infos, Place(infos, b, k, d, e))
  {
    var r := Place(infos, b, k, d, e);
    assert r.loads[k][..|r.loads[k]| - 1] == b.loads[k];
  }

  lemma PlaceKeepsEvents(infos: seq<SlotInfo>, b: Board, k: nat, d: nat, e: ScheduledEvent)
    requires Matches(infos, b) && EventsCanonical(b.days) && OnSlotDates(infos, b.days)
    requires k < |infos| && IsCanonicalClock(e.start) && IsCanonicalClock(e.end)
    ensures EventsCanonical(Place(infos, b, k, d, e).days)
    ensures OnSlotDates(infos, Place(infos, b, k, d, e).days)
  {
  }

  lemma PlaceKeepsRoutinesOnce(infos: seq<SlotInfo>, b: Board, k: nat, d: nat, e: ScheduledEvent)
    requires Matches(infos, b) && RoutinesOncePerDay(b.days) && k < |infos|
    requires e.kind == RoutineEvent ==> !HasRoutine(DayEvents(b.days, infos[k].date), e.title)
    ensures RoutinesOncePerDay(Place(infos, b, k, d, e).days)
  {
    var date := infos[k].date;
    var es := DayEvents(b.days, date) + [e];
    forall i, j | 0 <= i < j < |es| && es[i].kind == RoutineEvent && es[j].kind == RoutineEvent
      ensures es[i].title != es[j].title
    {
      if j == |es| - 1 {
        assert DayEvents(b.days, date)[i] == es[i];
      } else {
        assert date in b.days;
      }
    }
  }

  /** Placing a fitting duration with a rendered event keeps the board sound,
      as long as a routine event is the first of its title on its date. */
  lemma PlaceSound(infos: seq<SlotInfo>, b: Board, k: nat, d: nat, e: ScheduledEvent)
    requires Sound(infos, b) && k < |infos|
    requires CanFitInSlot(infos[k], Sum(b.loads[k]), d)
    requires IsCanonicalClock(e.start) && IsCanonicalClock(e.end)
    requires e.kind == RoutineEvent ==> !HasRoutine(DayEvents(b.days, infos[k].date), e.title)
    ensures Sound(infos, Place(infos, b, k, d, e))
  {
    PlaceKeepsCapacity(infos, b, k, d, e);
    PlaceKeepsEvents(infos, b, k, d, e);
    PlaceKeepsRoutinesOnce(infos, b, k, d, e);
  }

  // ---------------------------------------------------------------- routines

  /** One routine task: when some slot passes the routine tests it is placed,
      into exactly one slot, which lies on a repeat day, starts at the
      resolved preferred time when there is one, and whose date had no routine
      event of that title before and has one after. Otherwise nothing
      changes. */
  lemma RoutineTaskPlacement(infos: seq<SlotInfo>, b: Board, source: string, task: RoutineTask)
    requires Matches(infos, b)
    ensures var r := PlaceRoutineTask(infos, b, source, task);
            var preferred := ResolvePreferredTime(task.preferredTime);
            (r == b <==> forall k :: 0 <= k < |infos| ==>
                           !RoutineFits(infos[k], b.loads[k], b.days, task, preferred))
            && (r == b ||
                exists k ::
                  0 <= k < |infos|
                  && r.loads == b.loads[k := b.loads[k] + [task.duration]]
                  && DayName(infos[k].date) in task.repeat
                  && (preferred.Some? ==> infos[k].start == preferred.value)
                  && !HasRoutine(DayEvents(b.days, infos[k].date), task.name)
                  && HasRoutine(DayEvents(r.days, infos[k].date), task.name))
  {
    var r := PlaceRoutineTask(infos, b, source, task);
    var preferred := ResolvePreferredTime(task.preferredTime);
    var bs := RoutineTests(infos, b, task, preferred);
    match RoutineSlot(infos, b, task, preferred)
    case None =>
    case Some(k) =>
      var e := NextEvent(infos, b, k, task.duration, task.name, RoutineEvent, source, None);
      var es := DayEvents(r.days, infos[k].date);
      assert es[|es| - 1] == e;
      assert r.loads[k] != b.loads[k];
  }

  lemma RoutineTaskSound(infos: seq<SlotInfo>, b: Board, source: string, task: RoutineTask)
    requires Sound(infos, b)
    ensures Sound(infos, PlaceRoutineTask(infos, b, source, task))
  {
    var preferred := ResolvePreferredTime(task.preferredTime);
    match RoutineSlot(infos, b, task, preferred)
    case None =>
    case Some(k) =>
      var e := NextEvent(infos, b, k, task.duration, task.name, RoutineEvent, source, None);
      PlaceSound(infos, b, k, task.duration, e);
  }

  lemma {:induction false} RoutineTasksSound(infos: seq<SlotInfo>, b: Board, source: string,
                                             tasks: seq<RoutineTask>)
    requires Sound(infos, b)
    ensures Sound(infos, PlaceRoutineTasks(infos, b, source, tasks))
  {
    if tasks != [] {
      RoutineTasksSound(infos, b, source, tasks[..|tasks| - 1]);
      RoutineTaskSound(infos, PlaceRoutineTasks(infos, b, source, tasks[..|tasks| - 1]),
                       source, tasks[|tasks| - 1]);
    }
  }

  /** The routine pass keeps the board sound: no slot overfilled, no routine
      twice on a date. */
  lemma {:induction false} RoutinesSound(infos: seq<SlotInfo>, b: Board, routines: seq<Routine>)
    requires Sound(infos, b)
    ensures Sound(infos, PlaceRoutines(infos, b, routines))
  {
    if routines != [] {
      var last := routines[|routines| - 1];
      RoutinesSound(infos, b, routines[..|routines| - 1]);
      RoutineTasksSound(infos, PlaceRoutines(infos, b, routines[..|routines| - 1]),
                        last.filename, last.tasks);
    }
  }

  // ---------------------------------------------------------------- project tasks

  /** Short and any tasks need only to fit; a long task also needs 180 free
      minutes. */
  lemma OnlyLongNeedsRoom(info: SlotInfo, load: seq<nat>, task: Task)
    ensures task.blockType != Long ==>
              (TaskFits(info, load, task) <==> CanFitInSlot(info, Sum(load), task.duration))
    ensures task.blockType == Long ==>
              (TaskFits(info, load, task) <==>
                 CanFitInSlot(info, Sum(load), task.duration) && info.duration - Sum(load) >= 180)
  {
  }

  /** One project task: it is placed exactly when its key is new, its listed
      dependencies are all scheduled, and some slot passes; then one slot
      gets one more placement, the key is added and the count goes up by
      one. Otherwise nothing changes. */
  lemma TaskPlacement(infos: seq<SlotInfo>, p: Progress, filename: string, kind: EventType, task: Task)
    requires Matches(infos, p.board)
    ensures var r := PlaceTask(infos, p, filename, kind, task);
            var key := TaskKey(filename, task.id);
            (r == p <==> key in p.keys
                         || (|task.dependencies| > 0 && !DepsScheduled(p.keys, filename, task.dependencies))
                         || forall k :: 0 <= k < |infos| ==> !TaskFits(infos[k], p.board.loads[k], task))
            && (r == p || (key !in p.keys && r.keys == p.keys + {key} && r.count == p.count + 1
                           && DepsScheduled(p.keys, filename, task.dependencies)
                           && exists k ::
                                0 <= k < |infos| && TaskFits(infos[k], p.board.loads[k], task)
                                && r.board.loads == p.board.loads[k := p.board.loads[k] + [task.duration]]))
  {
    var r := PlaceTask(infos, p, filename, kind, task);
    var key := TaskKey(filename, task.id);
    var bs := TaskTests(infos, p.board, task);
    if key !in p.keys && !(!DepsScheduled(p.keys, filename, task.dependencies) && |task.dependencies| > 0) {
      match TaskSlot(infos, p.board, task)
      case None =>
      case Some(k) =>
        assert r.count == p.count + 1;
        assert r.board.loads[k] != p.board.loads[k];
    }
  }

  /** A long task only ever goes into a slot with at least 180 free minutes. */
  lemma LongTaskRoom(infos: seq<SlotInfo>, p: Progress, filename: string, kind: EventType, task: Task)
    requires Matches(infos, p.board) && task.blockType == Long
    ensures var r := PlaceTask(infos, p, filename, kind, task);
            r == p ||
            exists k ::
              0 <= k < |infos| && infos[k].duration - Sum(p.board.loads[k]) >= 180
              && r.board.loads == p.board.loads[k := p.board.loads[k] + [task.duration]]
  {
    TaskPlacement(infos, p, filename, kind, task);
  }

  lemma TaskSound(infos: seq<SlotInfo>, p: Progress, filename: string, kind: EventType, task: Task)
    requires Sound(infos, p.board) && kind != RoutineEvent
    ensures Sound(infos, PlaceTask(infos, p, filename, kind, task).board)
  {
    var key := TaskKey(filename, task.id);
    if key !in p.keys && !(!DepsScheduled(p.keys, filename, task.dependencies) && |task.dependencies| > 0) {
      match TaskSlot(infos, p.board, task)
      case None =>
      case Some(k) =>
        var e := NextEvent(infos, p.board, k, task.duration, task.name, kind, filename, Some(task.id));
        PlaceSound(infos, p.board, k, task.duration, e);
    }
  }

  lemma {:induction false} TasksSound(infos: seq<SlotInfo>, p: Progress, filename: string,
                                      kind: EventType, tasks: seq<Task>)
    requires Sound(infos, p.board) && kind != RoutineEvent
    ensures Sound(infos, PlaceTasks(infos, p, filename, kind, tasks).board)
  {
    if tasks != [] {
      TasksSound(infos, p, filename, kind, tasks[..|tasks| - 1]);
      TaskSound(infos, PlaceTasks(infos, p, filename, kind, tasks[..|tasks| - 1]),
                filename, kind, tasks[|tasks| - 1]);
    }
  }

  /** The keys of a list of tasks of one project. */
  function KeysOf(filename: string, tasks: seq<Task>): set<string>
  {
    set i | 0 <= i < |tasks| :: TaskKey(filename, tasks[i].id)
  }

  /** A key added by the pass is the key of a task of the list whose listed
      dependencies were all scheduled by the end of the pass. */
  predicate GatedKeys(added: set<string>, keys: set<string>, filename: string, tasks: seq<Task>)
  {
    forall key :: key in added ==>
      exists i :: 0 <= i < |tasks| && key == TaskKey(filename, tasks[i].id)
                  && DepsScheduled(keys, filename, tasks[i].dependencies)
  }

  /** The project pass only adds keys, counts exactly the keys it adds, adds
      only keys of the listed tasks, and adds a task's key only once every
      dependency key is scheduled. */
  lemma {:induction false} TasksKeys(infos: seq<SlotInfo>, p: Progress, filename: string,
                                     kind: EventType, tasks: seq<Task>)
    requires Matches(infos, p.board)
    ensures var r := PlaceTasks(infos, p, filename, kind, tasks);
            p.keys <= r.keys && r.count == p.count + |r.keys - p.keys|
            && GatedKeys(r.keys - p.keys, r.keys, filename, tasks)
  {
    if tasks != [] {
      var init := tasks[..|tasks| - 1];
      var t := tasks[|tasks| - 1];
      var m := PlaceTasks(infos, p, filename, kind, init);
      var r := PlaceTask(infos, m, filename, kind, t);
      TasksKeys(infos, p, filename, kind, init);
      TaskPlacement(infos, m, filename, kind, t);
      if r != m {
        var key := TaskKey(filename, t.id);
        assert r.keys - p.keys == (m.keys - p.keys) + {key};
      }
      GatedStep(p.keys, m.keys, r.keys, filename, tasks);
    }
  }

  /** The keys added before the last task stay gated once more keys are
      scheduled, and the last task's key is gated when its dependencies are
      scheduled. */
  lemma GatedStep(start: set<string>, mid: set<string>, keys: set<string>, filename: string,
                  tasks: seq<Task>)
    requires |tasks| > 0 && mid <= keys
    requires GatedKeys(mid - start, mid, filename, tasks[..|tasks| - 1])
    requires keys - start <= (mid - start) + {TaskKey(filename, tasks[|tasks| - 1].id)}
    requires keys != mid ==> DepsScheduled(mid, filename, tasks[|tasks| - 1].dependencies)
    ensures GatedKeys(keys - start, keys, filename, tasks)
  {
    var init := tasks[..|tasks| - 1];
    forall key | key in keys - start
      ensures exists i :: 0 <= i < |tasks| && key == TaskKey(filename, tasks[i].id)
                          && DepsScheduled(keys, filename, tasks[i].dependencies)
    {
      if key in mid - start {
        var i :| 0 <= i < |init| && key == TaskKey(filename, init[i].id)
                 && DepsScheduled(mid, filename, init[i].dependencies);
        assert tasks[i] == init[i];
      } else {
        assert key == TaskKey(filename, tasks[|tasks| - 1].id);
      }
    }
  }

  /** Turn `i` of a project pass: it either leaves the keys alone, or adds
      the key of `tasks[i]`, which was new, when every dependency key of
      that task was already scheduled before the turn. */
  lemma TurnGate(infos: seq<SlotInfo>, p: Progress, filename: string, kind: EventType,
                 tasks: seq<Task>, i: nat)
    requires Matches(infos, p.board) && i < |tasks|
    ensures var before := PlaceTasks(infos, p, filename, kind, tasks[..i]);
            var after := PlaceTasks(infos, p, filename, kind, tasks[..i + 1]);
            var key := TaskKey(filename, tasks[i].id);
            after.keys == before.keys
            || (key !in before.keys && after.keys == before.keys + {key}
                && DepsScheduled(before.keys, filename, tasks[i].dependencies))
  {
    var before := PlaceTasks(infos, p, filename, kind, tasks[..i]);
    assert tasks[..i + 1][..i] == tasks[..i];
    assert PlaceTasks(infos, p, filename, kind, tasks[..i + 1])
        == PlaceTask(infos, before, filename, kind, tasks[i]);
    TaskPlacement(infos, before, filename, kind, tasks[i]);
  }

  /** Every key a project pass adds was added at the turn of one of its
      tasks, when the key was still new and every dependency key of that
      task was already scheduled: a dependency scheduled later in the same
      pass does not count. */
  lemma {:induction false} AddedAtTurn(infos: seq<SlotInfo>, p: Progress, filename: string,
                                       kind: EventType, tasks: seq<Task>, key: string)
    requires Matches(infos, p.board)
    requires key in PlaceTasks(infos, p, filename, kind, tasks).keys && key !in p.keys
    ensures exists i :: 0 <= i < |tasks| && key == TaskKey(filename, tasks[i].id)
                        && key !in PlaceTasks(infos, p, filename, kind, tasks[..i]).keys
                        && DepsScheduled(PlaceTasks(infos, p, filename, kind, tasks[..i]).keys,
                                         filename, tasks[i].dependencies)
  {
    var n := |tasks| - 1;
    var init := tasks[..n];
    var m := PlaceTasks(infos, p, filename, kind, init);
    assert tasks[..n + 1] == tasks;
    if key in m.keys {
      AddedAtTurn(infos, p, filename, kind, init, key);
      var i :| 0 <= i < |init| && key == TaskKey(filename, init[i].id)
               && key !in PlaceTasks(infos, p, filename, kind, init[..i]).keys
               && DepsScheduled(PlaceTasks(infos, p, filename, kind, init[..i]).keys,
                                filename, init[i].dependencies);
      assert init[..i] == tasks[..i] && init[i] == tasks[i];
    } else {
      TurnGate(infos, p, filename, kind, tasks, n);
    }
  }

  /** A task none of whose scheduled-key conditions can ever hold stays
      unscheduled: when a dependency id is not the id of any task of the
      project and its key is not already scheduled, the dependent task is
      not placed by scheduleProjectTasks, although topologicalSort ignores
      that id. */
  lemma DanglingDependencyBlocks(infos: seq<SlotInfo>, b: Board, keys: set<string>,
                                 project: Project, kind: EventType, t: Task, d: string)
    requires Matches(infos, b) && DistinctIds(project.tasks)
    requires t in project.tasks && d in t.dependencies && d !in Ids(project.tasks)
    requires TaskKey(project.filename, d) !in keys && TaskKey(project.filename, t.id) !in keys
    ensures TaskKey(project.filename, t.id) !in ScheduleProject(infos, b, keys, project, kind).keys
  {
    var f := project.filename;
    var sorted := TopoOrder(project.tasks);
    var r := ScheduleProject(infos, b, keys, project, kind);
    TasksKeys(infos, Progress(b, keys, 0), f, kind, sorted);
    TopoOrderIsSelection(project.tasks);
    if TaskKey(f, t.id) in r.keys {
      assert TaskKey(f, t.id) in r.keys - keys;
      var i :| 0 <= i < |sorted| && TaskKey(f, t.id) == TaskKey(f, sorted[i].id)
               && DepsScheduled(r.keys, f, sorted[i].dependencies);
      TaskKeyInjective(f, t.id, sorted[i].id);
      assert sorted[i] in project.tasks;
      assert sorted[i] == t;
      var j :| 0 <= j < |t.dependencies| && t.dependencies[j] == d;
      assert TaskKey(f, d) in r.keys - keys;
      var i' :| 0 <= i' < |sorted| && TaskKey(f, d) == TaskKey(f, sorted[i'].id)
                && DepsScheduled(r.keys, f, sorted[i'].dependencies);
      TaskKeyInjective(f, d, sorted[i'].id);
      assert false;
    }
  }
}
