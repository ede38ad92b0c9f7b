/** The records the parsers produce and the scheduler consumes and returns
    (types/index.ts). Dates are whole day numbers; day 0 is a Sunday. */
module Types {

  datatype Option<T> = None | Some(value: T)

  /** The weekday names, indexed by day of the week (0 is Sunday). */
  const DayNames: seq<string> := ["Sun", "Mon", "Tue", "Wed", "Thu", "Fri", "Sat"]

  /** A hint about the slot sizes a task suits: `long` needs 180 free minutes. */
  datatype BlockType = Short | Long | Any

  /** Which placement pass produced an event. */
  datatype EventType = RoutineEvent | FocusEvent | BufferEvent

  /** One line of a project file. `duration` is in minutes. */
  datatype Task = Task(
    id: string,
    name: string,
    duration: nat,
    blockType: BlockType,
    dependencies: seq<string>)

  /** A project file. `priority` is whatever text the frontmatter holds: the
      parser casts it without checking it against high, medium and low. */
  datatype Project = Project(
    filename: string,
    project: string,
    priority: string,
    deadline: Option<string>,
    tasks: seq<Task>)

  /** One line of a routine file: `repeat` holds weekday names, `preferredTime`
      the literal "HH:MM" or keyword written in the file. */
  datatype RoutineTask = RoutineTask(
    name: string,
    duration: nat,
    repeat: seq<string>,
    preferredTime: Option<string>)

  datatype Routine = Routine(
    filename: string,
    name: string,
    priority: string,
    tasks: seq<RoutineTask>)

  /** A placed event; `start` and `end` are "HH:MM" strings. */
  datatype ScheduledEvent = ScheduledEvent(
    start: string,
    end: string,
    title: string,
    kind: EventType,
    source: string,
    taskId: Option<string>)

  datatype DaySchedule = DaySchedule(date: int, events: seq<ScheduledEvent>)

  /** The summary of a run; hours are kept as whole tenths of an hour. */
  datatype Summary = Summary(
    totalTasks: int,
    scheduledTasks: int,
    unscheduledTasks: int,
    totalTenthHours: int)

  datatype ScheduleResult = ScheduleResult(schedule: seq<DaySchedule>, summary: Summary)

  /** The configuration: per weekday name ("Mon", ...) a list of "HH:MM-HH:MM"
      ranges, and the filenames of the focus and the buffer project. */
  datatype Config = Config(
    available: map<string, seq<string>>,
    focus: string,
    buffer: string,
    queue: seq<string>,
    scheduleWeeks: int,
    calendarId: string)

  datatype Estimate = Estimate(requiredWeeks: int, totalTasks: int, totalTenthHours: int)
}
