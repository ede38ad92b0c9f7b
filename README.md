# Weekly planner scheduler, modelled in Dafny

The planner reads two kinds of Markdown files.

- **Project files** open with a frontmatter block (`project`, `priority`, `deadline`). Their task lines look like `- [ ] #<id> <name> | <duration> [| short|long|any] [| after:#<id>,...]`.
- **Routine files** carry `type: routine` in the frontmatter. Their lines look like `- [ ] <name> | <duration> | <days> [| HH:MM|morning|afternoon|evening]`.

The scheduler then fills a horizon of weeks, in three passes:

1. It cuts the configured weekly availability ranges into time slots, one per range per day.
2. It places routines. Each routine task goes into the first slot of the whole horizon that passes its tests (a repeat day, the preferred start if any, room, and no event of that routine on that day yet). It gets at most one event per run, because the scan stops at the first placement.
3. It places the focus project's tasks, then the buffer project's tasks. Each pass goes once through the tasks in dependency order. A task with a dependency that is not placed yet at its turn is skipped, and the pass does not come back to it.

The result lists the dates in order, each with its events sorted by start time. It ends with a summary: the task counts and the total hours. `calculateRequiredWeeks` runs the whole scheduler for 1, 2, … weeks, up to a bound, and returns the first horizon that places every task.

The model has two layers.

- **Values.** A functional specification works on plain values: slot descriptions (`SlotInfo`), the minutes placed in each slot, the date-to-events map, and the set of placed task keys (`Placement`, `PlacementFacts`, `Pipeline`).
- **Imperative code.** It follows the source's in-place style:
  - a `TimeSlot` class whose `used` counter grows;
  - an `EventMap` class for the date map;
  - a `KeySet` class for the placed keys;
  - the closure of `topologicalSort` as a `TopoSorter` class;
  - loops for every scan.

  Each method is proved equal to the value-level function. The facts about the schedule are proved as lemmas about those functions.

Modules:

| module | what it models |
|---|---|
| `Text` | the JavaScript string operations the parsers use: `trim`, `split`, `indexOf`, `toLowerCase`/`toUpperCase`, digit strings |
| `Markdown` | what both parsers share: the frontmatter regex and record, the body after the header, `parseDuration`, stripping `.md` |
| `ProjectParser` | `projectParser.ts`: the task-line regex, dependencies, `parseProject` |
| `RoutineParser` | `routineParser.ts`: the routine-line regex, `parseRepeat`, `parseRoutine`, `isRoutineFile` |
| `Clock` | `timeToMinutes` and `minutesToTime` |
| `Slots` | the date range, the slots of each day, the slot tests, and `scheduleInSlot` on a `TimeSlot` object |
| `Placement`, `PlacementFacts` | the routine and project passes as functions over values, and what they keep true |
| `Scheduler` | the passes as loops over `TimeSlot` objects, the date map and the key set |
| `Topo` | `topologicalSort` |
| `Ordering` | the stable sort by start time, and the sorted dates |
| `Assembly` | the result list and the summary |
| `Pipeline` | `createSchedule` and `calculateRequiredWeeks` |

`routineParser.ts` holds its own copies of `parseDuration` (lines 13-21), of `parseFrontmatter` (lines 53-70) and of the frontmatter regex. Each copy is identical to the one in `projectParser.ts`, so both parsers use the one `Markdown` model.

## Model

| member | source | states |
|---|---|---|
| Text.Trim | server/src/parsers/projectParser.ts:69 | `trim()` leaves no whitespace at either end |
| Text.TrimIsInfix | server/src/parsers/projectParser.ts:69 | the trimmed text is the input with only whitespace removed, from its two ends |
| Text.TrimPadded | server/src/parsers/projectParser.ts:77 | trimming text that is already trimmed, padded with whitespace, gives that text back |
| Text.Split | server/src/parsers/projectParser.ts:66 | `split` returns at least one piece, and no piece holds the separator |
| Text.JoinSplit | server/src/parsers/projectParser.ts:66 | joining the pieces of a split with the separator gives the original text back |
| Text.SplitJoin | server/src/parsers/projectParser.ts:30 | splitting a join of pieces that contain no separator gives those pieces back |
| Text.IndexOfChar | server/src/parsers/projectParser.ts:44 | `indexOf(c)` is -1 exactly when `c` does not occur; otherwise it is the first position of `c` |
| Text.IndexOfFrom | server/src/parsers/projectParser.ts:63 | `indexOf(pat, from)` is -1 or a position at or after `from` where `pat` occurs |
| Text.IndexOfFromFirst | server/src/parsers/projectParser.ts:63 | it is -1 exactly when `pat` occurs nowhere from `from` on; otherwise no earlier occurrence exists |
| Text.ToLower | server/src/parsers/routineParser.ts:30 | lower-casing maps every character and keeps the length |
| Text.TrimLower | server/src/parsers/routineParser.ts:30 | `trim().toLowerCase()` and `toLowerCase().trim()` agree |
| Text.SplitLower | server/src/parsers/routineParser.ts:43 | splitting at a non-letter commutes with lower-casing |
| Markdown.FrontmatterBody | server/src/parsers/projectParser.ts:8 | a match of `^---\n([\s\S]*?)\n---` makes the content start with the opening line, the capture and the closing line |
| Markdown.FrontmatterBodyFirstClose | server/src/parsers/projectParser.ts:8 | the lazy capture stops at the first closing `\n---`, and there is no match exactly when the opening is missing or no closing follows |
| Markdown.FrontmatterBodyOfBlock | server/src/parsers/projectParser.ts:37 | a block without `\n---` between the markers is captured whole |
| Markdown.LineEntry | server/src/parsers/projectParser.ts:44-48 | a line yields a key and value exactly when it has a colon |
| Markdown.ParseFrontmatter | server/src/parsers/projectParser.ts:36-53 | the loop builds the record of the captured lines, and the record is empty when the regex does not match |
| Markdown.CollectKeys | server/src/parsers/projectParser.ts:43-50 | a key is in the record exactly when some line has a colon and names it |
| Markdown.CollectLastWins | server/src/parsers/projectParser.ts:49 | when a key is named twice, the last line's value stands |
| Markdown.LinesKeys | server/src/parsers/projectParser.ts:41-50 | the record's keys are exactly the keys named by the lines of the block |
| Markdown.FrontmatterOfBlock | server/src/parsers/projectParser.ts:36-53 | the record of a file is the record of its block's lines |
| Markdown.FieldOr | server/src/parsers/projectParser.ts:87 | `frontmatter.x \|\| fallback`: an absent or empty value gives the fallback |
| Markdown.BodyAfterHeader | server/src/parsers/projectParser.ts:63-64 | the body is the whole content when no `---` follows position 3, and otherwise a strict suffix |
| Markdown.HeaderEnd | server/src/parsers/projectParser.ts:63-64 | for a file with a well-formed frontmatter block, the body is exactly what follows the closing `---` |
| Markdown.StripMd | server/src/parsers/projectParser.ts:86 | `replace(/\.md$/, '')` drops one trailing `.md` and leaves any other name alone |
| Markdown.StripMdOfMd | server/src/parsers/projectParser.ts:86 | stripping `name.md` gives `name` |
| Markdown.RoundDiv | server/src/parsers/projectParser.ts:21 | `Math.round(a / b)` is the whole number r with r − ½ ≤ a / b < r + ½: the nearest one, halves rounded up |
| Markdown.ParseDuration | server/src/parsers/projectParser.ts:14-22 | text that does not match `^(\d+\.?\d*)([hm])$` gives 0 |
| Markdown.ParseDurationRounds | server/src/parsers/projectParser.ts:14-22 | a duration token p/q (its numeral as an exact fraction) gives the whole number of minutes r with r − ½ ≤ p/q·60 < r + ½ for `h`, and the same with p/q for `m` |
| Markdown.DecimalFractionOf | server/src/parsers/projectParser.ts:18 | a numeral `<whole>.<frac>` is worth its whole part times 10^k plus its fraction digits, over 10^k, for k fraction digits |
| Markdown.QuarterHourExample | server/src/parsers/__tests__/projectParser.test.ts:125-130 | `2.25h` is 135 minutes |
| Markdown.HalfMinuteExample | server/src/parsers/projectParser.ts:21 | the half minute of `1.5m` rounds up to 2 |
| Markdown.ParseWholeDuration | server/src/parsers/projectParser.ts:14-22 | `<n>h` is 60·n minutes and `<n>m` is n minutes |
| Markdown.ParseTenthsOfHour | server/src/parsers/projectParser.ts:14-22 | `<n>.<d>h` is 60·n + 6·d minutes |
| Markdown.ThirtyMinutesExample | server/src/parsers/projectParser.ts:12 | the documented example: `30m` is 30 |
| Markdown.HalfHourExamples | server/src/parsers/projectParser.ts:12 | the documented example `1.5h` is 90, and likewise 0.5h and 2.5h |
| Markdown.MinutesText | server/src/parsers/projectParser.ts:14-22 | the text `<d>m` is a duration token that parses back to d |
| ProjectParser.RemoveFirst | server/src/parsers/projectParser.ts:30 | `replace('#', '')` removes one character when there is one, and nothing otherwise |
| ProjectParser.ParseDependencies | server/src/parsers/projectParser.ts:28-31 | the list is empty exactly when the capture is absent or empty, and every id is trimmed |
| ProjectParser.DependenciesRoundTrip | server/src/parsers/projectParser.ts:28-31 | `#a,#b,…` written from trimmed ids without commas parses back to the same ids |
| ProjectParser.DigitRun | server/src/parsers/projectParser.ts:5 | `(\d+)` takes the longest run of leading digits |
| ProjectParser.BlockTypeOf | server/src/parsers/projectParser.ts:5 | only `short`, `long` and `any` are block types |
| ProjectParser.AfterField | server/src/parsers/projectParser.ts:5 | the optional last piece reads `after:` followed by a capture of `#`, digits and commas |
| ProjectParser.Fields | server/src/parsers/projectParser.ts:5 | after the name come one to three pieces: a duration token, then an optional block type, then optional dependencies |
| ProjectParser.NameEnds | server/src/parsers/projectParser.ts:5 | for each '\|', whether the lazy name can end there |
| ProjectParser.MatchTaskLine | server/src/parsers/projectParser.ts:5 | a match starts with `- [ ] #` and a numeric id, and yields a trimmed name and trimmed dependency ids; a line without the prefix does not match |
| ProjectParser.TaskAt | server/src/parsers/projectParser.ts:73-81 | a match becomes a task: the id, the trimmed name, the parsed duration, `any` when the block type is absent, and the parsed dependencies |
| ProjectParser.BlockNameRead | server/src/parsers/projectParser.ts:79 | every block type's name reads back as that block type |
| ProjectParser.TaskLineRoundTrip | server/src/parsers/projectParser.ts:5 | a well-formed task written as a task line matches, and gives the same task back |
| ProjectParser.DeadlineOf | server/src/parsers/projectParser.ts:89 | `frontmatter.deadline \|\| null`: a deadline exactly when the key holds a non-empty value |
| ProjectParser.ParseProject | server/src/parsers/projectParser.ts:58-92 | `parseProject` is the frontmatter fields plus the tasks of the body lines |
| ProjectParser.CollectTasks | server/src/parsers/projectParser.ts:68-83 | the loop keeps, in line order, the task of every line that matches once trimmed |
| ProjectParser.ProjectDefaults | server/src/parsers/projectParser.ts:85-91 | without frontmatter, the project is named after the file, has priority `medium`, and has no deadline |
| ProjectParser.TaskLinesFromLines | server/src/parsers/projectParser.ts:68-83 | every task comes from some line of the body |
| ProjectParser.RenderTaskTrimmed | server/src/parsers/projectParser.ts:69 | a written task line is unchanged by `trim()` |
| ProjectParser.RenderedTasks | server/src/parsers/projectParser.ts:68-83 | lines written from well-formed tasks read back as those tasks, in order |
| ProjectParser.LeadingBlankLine | server/src/parsers/projectParser.ts:63-66 | the empty line left after the closing `---` adds no task |
| ProjectParser.ProjectFileTasks | server/src/parsers/projectParser.ts:58-92 | a file made of a frontmatter block and task lines parses back to exactly those tasks |
| ProjectParser.ProjectFileFrontmatter | server/src/parsers/projectParser.ts:36-53 | the frontmatter record of such a file is the record of its block |
| RoutineParser.Capitalize | server/src/parsers/routineParser.ts:46 | the first letter is upper-cased, the others lower-cased, and the length is kept |
| RoutineParser.CapitalizeNormal | server/src/parsers/routineParser.ts:46 | capitalizing twice equals capitalizing once, and it keeps a trimmed name trimmed |
| RoutineParser.KeywordDays | server/src/parsers/routineParser.ts:32-40 | `daily` gives Mon–Sun, `weekdays` Mon–Fri, `weekends` Sat–Sun; any other text is not a keyword |
| RoutineParser.DayListsNormal | server/src/parsers/routineParser.ts:33-39 | `weekdays` is Mon–Fri and `weekends` is Sat–Sun of the `daily` list, and every name is three letters |
| RoutineParser.DayPieces | server/src/parsers/routineParser.ts:43-47 | one capitalized, trimmed name per comma-separated piece |
| RoutineParser.ParseRepeat | server/src/parsers/routineParser.ts:29-48 | a field that trims and lower-cases to `daily`, `weekdays` or `weekends` gives that keyword's days; any other field gives its comma-separated pieces, each trimmed and capitalized; either way the list is non-empty and its names are capitalized and trimmed |
| RoutineParser.RepeatIgnoresCase | server/src/parsers/routineParser.ts:29-48 | the case of the input does not matter |
| RoutineParser.DailyExample | server/src/parsers/__tests__/routineParser.test.ts:84-96 | `daily` is the seven days from Mon to Sun |
| RoutineParser.WeekdaysExample | server/src/parsers/__tests__/routineParser.test.ts:98-111 | `weekdays` is Mon to Fri |
| RoutineParser.WeekendsExample | server/src/parsers/__tests__/routineParser.test.ts:113-120 | `Weekends` is Sat and Sun, whatever the case |
| RoutineParser.NoKeywordOfLength | server/src/parsers/routineParser.ts:30-40 | a list of three-letter names joined by commas is never a keyword |
| RoutineParser.RepeatRoundTrip | server/src/parsers/routineParser.ts:29-48 | day names joined by commas parse back to the same names |
| RoutineParser.ListRoundTrip | server/src/parsers/routineParser.ts:29-48 | this holds for any non-empty list of capitalized, trimmed, comma-free names of three letters |
| RoutineParser.TimeField | server/src/parsers/routineParser.ts:5 | the optional last piece is `\d{2}:\d{2}` or one of the three keywords |
| RoutineParser.RFields | server/src/parsers/routineParser.ts:5 | after the name come a duration, a `[a-zA-Z,]+` repeat and an optional time: two or three pieces, with a time exactly when there are three |
| RoutineParser.RoutineEnds | server/src/parsers/routineParser.ts:5 | for each '\|', whether the lazy name can end there |
| RoutineParser.MatchRoutineLine | server/src/parsers/routineParser.ts:5 | a match starts with `- [ ] ` and yields a trimmed name, at least one day, and a time capture when there is one; a line without the prefix does not match |
| RoutineParser.RoutineAt | server/src/parsers/routineParser.ts:90-97 | a match becomes a routine task with a trimmed name, a non-empty repeat list, and the literal time |
| RoutineParser.RoutineLineRoundTrip | server/src/parsers/routineParser.ts:5 | a well-formed routine written as a line matches, and gives the same routine back |
| RoutineParser.ParseRoutine | server/src/parsers/routineParser.ts:75-107 | `parseRoutine` is the frontmatter fields plus the routines of the body lines |
| RoutineParser.CollectRoutineTasks | server/src/parsers/routineParser.ts:85-99 | the loop keeps, in line order, the routine of every line that matches once trimmed |
| RoutineParser.RoutineDefaults | server/src/parsers/routineParser.ts:101-106 | without frontmatter, the routine is named after the file and has priority `medium` |
| RoutineParser.RoutineTasksFromLines | server/src/parsers/routineParser.ts:85-99 | every routine task comes from some line of the body |
| RoutineParser.RenderedRoutines | server/src/parsers/routineParser.ts:85-99 | lines written from well-formed routines read back as those routines, in order |
| RoutineParser.RoutineFileTasks | server/src/parsers/routineParser.ts:75-107 | a file made of a frontmatter block and routine lines parses back to exactly those routines |
| RoutineParser.IsRoutineFile | server/src/parsers/routineParser.ts:112-117 | only content that opens with a frontmatter marker can be a routine file |
| RoutineParser.RoutineFileOfBlock | server/src/parsers/routineParser.ts:112-117 | a file with a frontmatter block is a routine file exactly when the block contains `type: routine` or `type:routine` |
| RoutineParser.RoutineFileRecognised | server/src/parsers/routineParser.ts:112-117 | the same holds for a written routine file, whatever lines follow |
| Clock.TimeToMinutes | server/src/services/scheduler.ts:22-25 | defines `timeToMinutes` on `HH:MM` text; its meaning (hour·60 + minute, below one day, inverse of `minutesToTime`) is stated by Clock.CanonicalIsClock and Clock.MinutesRoundTrip |
| Clock.Pad2 | server/src/services/scheduler.ts:33 | `padStart(2, '0')` gives two digits that denote the number |
| Clock.MinutesToTime | server/src/services/scheduler.ts:30-34 | the result is `HH:MM` with hour `(m / 60) % 24` and minute `m % 60` |
| Clock.CanonicalIsClock | server/src/services/scheduler.ts:22-25 | an `HH:MM` time reads as hour·60 + minute, below one day |
| Clock.MinutesRoundTrip | server/src/services/scheduler.ts:22-34 | writing a minute count and reading it back gives it modulo one day |
| Clock.CanonicalRoundTrip | server/src/services/scheduler.ts:22-34 | reading an `HH:MM` time and writing it back gives the same text |
| Clock.MidnightRendersAsZero | server/src/services/scheduler.ts:31 | minute 1440 is written `00:00` |
| Slots.DayNameWeekly | server/src/services/scheduler.ts:71 | day names repeat every seven days, and any seven consecutive days carry all seven names |
| Slots.DateRange | server/src/services/scheduler.ts:39-51 | defines the days of `getDateRange`; Slots.DateRangeShape states what they are |
| Slots.DateRangeShape | server/src/services/scheduler.ts:39-51 | the range is the 7·weeks consecutive days from the start, or nothing when weeks ≤ 0 |
| Slots.GetDateRange | server/src/services/scheduler.ts:39-51 | the loop produces exactly that range |
| Slots.RangeSlot | server/src/services/scheduler.ts:75-83 | a range `start-end` becomes a slot on that date, whose duration is end minus start in minutes |
| Slots.DaySlots | server/src/services/scheduler.ts:71-86 | a day gets one slot per range configured for its weekday, in configured order |
| Slots.SlotInfos | server/src/services/scheduler.ts:63-90 | every slot lies on one of the dates and starts at a readable time |
| Slots.SlotInfosStep | server/src/services/scheduler.ts:70-87 | the slots of one more date are appended after the earlier ones |
| Slots.SlotsInDateOrder | server/src/services/scheduler.ts:70-87 | for ascending dates, the slots come in date order |
| Slots.NoDaysNoSlots | server/src/services/scheduler.ts:39-51 | no weeks means no slots |
| Slots.PlacementsDisjoint | server/src/services/scheduler.ts:144-147 | events placed one after another in a slot do not overlap |
| Slots.TimeSlot.constructor | server/src/services/scheduler.ts:79-85 | a new slot has the given date, times and duration, with nothing used |
| Slots.PushSlots | server/src/services/scheduler.ts:74-86 | pushing one day's slots appends new unused slot objects with those descriptions and keeps the earlier ones |
| Slots.CalculateAvailableSlots | server/src/services/scheduler.ts:63-90 | the new, unused slot objects describe exactly the slots of the dates |
| Slots.ResolvePreferredTime | server/src/services/scheduler.ts:95-105 | defines `resolvePreferredTime`; Slots.ResolvedTimes states its table, fall-through and idempotence |
| Slots.CanFitInSlot | server/src/services/scheduler.ts:110-112 | defines `canFitInSlot` as free minutes covering the duration; PlacementFacts.OnlyLongNeedsRoom uses it as the room test |
| Slots.IsSlotSuitableForBlockType | server/src/services/scheduler.ts:117-131 | defines `isSlotSuitableForBlockType`; Slots.SuitableUnlessLong states that only `long` ever rejects a slot |
| Slots.ResolvedTimes | server/src/services/scheduler.ts:95-105 | morning, afternoon and evening become 09:00, 13:00 and 19:00; any other time stays as written; resolving twice changes nothing more |
| Slots.SuitableUnlessLong | server/src/services/scheduler.ts:117-131 | a slot is unsuitable only for a `long` task with under 180 free minutes: the `short` test holds for every slot |
| Slots.SlotEventTimes | server/src/services/scheduler.ts:144-156 | an event runs from slot start + used to that plus its duration, taken modulo one day |
| Slots.SlotEventSpan | server/src/services/scheduler.ts:144-156 | an event that ends before midnight spans exactly its duration |
| Slots.ScheduleInSlot | server/src/services/scheduler.ts:136-157 | the slot's used minutes grow by the duration, and the event starts where the earlier events end |
| Placement.EmptyBoard | server/src/services/scheduler.ts:307-308 | every slot starts empty |
| Placement.Place | server/src/services/scheduler.ts:203-206 | placing an event keeps one load per slot |
| Placement.RoutineFits | server/src/services/scheduler.ts:171-192 | defines the four routine tests; Scheduler.RoutineFitsSlot proves the scan evaluates them in source order, and PlacementFacts.RoutineTaskPlacement what passing them means |
| Placement.RoutineTests | server/src/services/scheduler.ts:171-192 | for each slot, whether the routine may go there: on a repeat day, at the preferred start if any, with room, and not already placed that day |
| Placement.PlaceRoutineTask | server/src/services/scheduler.ts:169-208 | the routine goes into the first slot that passes |
| Placement.PlaceRoutineTasks | server/src/services/scheduler.ts:168-209 | the routine tasks of one file, in order, keep one load per slot; PlacementFacts.RoutinesSound states that they keep the schedule sound |
| Placement.PlaceRoutines | server/src/services/scheduler.ts:162-211 | the routines are placed in file order |
| Placement.TaskKeyInjective | server/src/services/scheduler.ts:254 | within a project, the keys `filename#id` of different ids differ |
| Placement.DepsScheduled | server/src/services/scheduler.ts:258-261 | defines `dependencies.every(...)`; PlacementFacts.TaskPlacement states that a task with an unplaced dependency is skipped |
| Placement.TaskFits | server/src/services/scheduler.ts:264-269 | defines the task-slot tests; PlacementFacts.OnlyLongNeedsRoom states when they hold |
| Placement.TaskTests | server/src/services/scheduler.ts:264-269 | for each slot, whether the task fits: room, block type, and 180 free minutes for `long` |
| Placement.PlaceTask | server/src/services/scheduler.ts:253-289 | one task's turn in a project pass |
| Placement.PlaceTasks | server/src/services/scheduler.ts:253-290 | the turns of a project's tasks, in order, keep one load per slot; PlacementFacts.TasksSound and PlacementFacts.TasksKeys state what the pass keeps |
| Placement.ScheduleProject | server/src/services/scheduler.ts:243-293 | a project pass runs over the tasks in dependency order |
| PlacementFacts.EmptySound | server/src/services/scheduler.ts:307-308 | the empty schedule is sound: no slot over capacity, no event, no routine twice a day |
| PlacementFacts.PlaceSound | server/src/services/scheduler.ts:195-206 | placing an event that fits, with readable times, and not a routine already on that day, keeps the schedule sound |
| PlacementFacts.PlaceKeepsRoutinesOnce | server/src/services/scheduler.ts:188-192 | the already-scheduled test keeps every routine at most once per date |
| PlacementFacts.RoutineTaskPlacement | server/src/services/scheduler.ts:171-207 | a routine stays unplaced exactly when no slot passes; otherwise it is placed once, in a slot on a repeat day, at its preferred start, where it was not yet placed that day |
| PlacementFacts.RoutinesSound | server/src/services/scheduler.ts:162-211 | the routine pass keeps the schedule sound |
| PlacementFacts.OnlyLongNeedsRoom | server/src/services/scheduler.ts:264-269 | a task fits a slot exactly when it has room, and for `long` also 180 free minutes |
| PlacementFacts.TaskPlacement | server/src/services/scheduler.ts:253-289 | a task is skipped exactly when its key is already placed, a dependency is unplaced, or no slot fits; otherwise it goes into a fitting slot, its key is added, and the count grows by one |
| PlacementFacts.LongTaskRoom | server/src/services/scheduler.ts:269 | a placed `long` task went into a slot with at least 180 free minutes |
| PlacementFacts.TasksSound | server/src/services/scheduler.ts:253-290 | a project pass keeps the schedule sound |
| PlacementFacts.TasksKeys | server/src/services/scheduler.ts:253-292 | a pass only adds keys, counts exactly the keys it adds, and adds only keys of its tasks whose dependencies are scheduled by the end of the pass |
| PlacementFacts.TurnGate | server/src/services/scheduler.ts:253-289 | each turn of a pass either leaves the keys alone or adds its task's new key, and then every dependency key of that task was scheduled before the turn |
| PlacementFacts.AddedAtTurn | server/src/services/scheduler.ts:253-289 | every key a pass adds was added at the turn of one of its tasks, while it was new and with every dependency key scheduled before that turn; a dependency placed later in the pass does not count |
| PlacementFacts.DanglingDependencyBlocks | server/src/services/scheduler.ts:258-261 | when the project's task ids are distinct and neither the task's key nor the missing dependency's key is placed beforehand, a task that depends on an id no task has is never placed |
| Topo.TaskMap | server/src/services/scheduler.ts:219 | `new Map(tasks.map(t => [t.id, t]))` maps every id of the list, and only those, to a task of the list with that id |
| Topo.WalkFrom | server/src/services/scheduler.ts:221-231 | `visit` only adds to the visited ids and the output, and enters the task's id; Topo.WalkFromAdds states exactly what it appends |
| Topo.WalkDeps | server/src/services/scheduler.ts:225-229 | the loop over a task's dependencies, skipping ids with no task, only adds to the visited ids and the output |
| Topo.WalkAll | server/src/services/scheduler.ts:233-235 | the loop over all tasks only adds to the visited ids and the output |
| Topo.TopoOrder | server/src/services/scheduler.ts:216-238 | defines the list `topologicalSort` returns; Topo.TopoOrderIsSelection, Topo.TopoOrderSize and Topo.TopoOrderDepsFirst state its properties |
| Topo.WalkFromAdds | server/src/services/scheduler.ts:221-231 | `visit` appends exactly the tasks whose ids it newly visits, each once |
| Topo.TopoOrderIsSelection | server/src/services/scheduler.ts:216-238 | the output holds one task for each distinct id of the input, and each of them comes from the input |
| Topo.TopoOrderSize | server/src/services/scheduler.ts:216-238 | the output has as many tasks as the input has distinct ids |
| Topo.TopoOrderDepsFirst | server/src/services/scheduler.ts:221-231 | when the dependencies are acyclic, every dependency that names a task comes before its dependent |
| Topo.TopoSorter.constructor | server/src/services/scheduler.ts:217-219 | the sorter starts with the id map, nothing visited and an empty output |
| Topo.TopoSorter.Visit | server/src/services/scheduler.ts:221-231 | the recursive `visit` on the object's fields performs the walk of the value model |
| Topo.TopologicalSort | server/src/services/scheduler.ts:216-238 | the method returns the order of the value model |
| Scheduler.EventMap.constructor | server/src/services/scheduler.ts:308 | the date map starts empty |
| Scheduler.EventMap.Push | server/src/services/scheduler.ts:203-206 | pushing creates the date's list when it is missing, then appends the event, and leaves every other date alone |
| Scheduler.KeySet.constructor | server/src/services/scheduler.ts:309 | the key set starts empty |
| Scheduler.KeySet.Add | server/src/services/scheduler.ts:286 | adding a key adds just that key |
| Scheduler.PlaceIn | server/src/services/scheduler.ts:195-206 | filling slot k and pushing its event is the value-level placement |
| Scheduler.RoutineFitsSlot | server/src/services/scheduler.ts:176-192 | the four tests, in source order, decide the routine test |
| Scheduler.FindRoutineSlot | server/src/services/scheduler.ts:171-192 | the scan returns the first slot that passes the routine test, or none |
| Scheduler.ScheduleRoutineTask | server/src/services/scheduler.ts:169-208 | placing one routine in place performs the value-level routine placement |
| Scheduler.ScheduleRoutineTasks | server/src/services/scheduler.ts:168-209 | the same holds for the routines of one file |
| Scheduler.ScheduleRoutines | server/src/services/scheduler.ts:162-211 | the routine pass on the objects is the value-level routine pass |
| Scheduler.FindTaskSlot | server/src/services/scheduler.ts:264-270 | the scan returns the first slot the task fits, or none |
| Scheduler.PlaceInFirstSlot | server/src/services/scheduler.ts:264-289 | the task goes into the first fitting slot, and nothing changes when there is none |
| Scheduler.PlaceTaskTried | server/src/services/scheduler.ts:253-289 | a task whose key is new and whose dependencies are placed is placed by the slot scan |
| Scheduler.ScheduleProjectTask | server/src/services/scheduler.ts:253-289 | one task's turn on the objects is the value-level turn |
| Scheduler.ScheduleProjectTasks | server/src/services/scheduler.ts:243-293 | `scheduleProjectTasks` on the objects is the value-level project pass, and it returns its count |
| Ordering.SortBy | server/src/services/scheduler.ts:344-346 | defines the stable sort; Ordering.SortBySorted, Ordering.SortByPerm and Ordering.SortByStable state that it sorts, permutes and is stable |
| Ordering.SortBySorted | server/src/services/scheduler.ts:344-346 | each day's events come out in start order |
| Ordering.SortByPerm | server/src/services/scheduler.ts:344-346 | sorting keeps exactly the same events |
| Ordering.SortByStable | server/src/services/scheduler.ts:344-346 | events with the same start keep their placement order, as `Array.prototype.sort` is stable |
| Ordering.SortedDates | server/src/services/scheduler.ts:341 | defines the ascending list of dates; Ordering.SortedDatesFacts states it |
| Ordering.SortedDatesFacts | server/src/services/scheduler.ts:341 | the dates come out ascending, each date once |
| Ordering.SortDates | server/src/services/scheduler.ts:341 | the loop that repeatedly takes the smallest date produces that order |
| Assembly.SortByStart | server/src/services/scheduler.ts:344-346 | defines the per-day sort by start minute; Assembly.DayScheduleEvents states its order and stability |
| Assembly.TotalTasks | server/src/services/scheduler.ts:350 | defines the `reduce` over task counts; Assembly.TotalTasksCovers states what it bounds |
| Assembly.TotalTasksCovers | server/src/services/scheduler.ts:350 | the total counts every project's tasks, so any one project, or any two different ones, have at most that many |
| Assembly.RoundTenths | server/src/services/scheduler.ts:374 | defines `Math.round(minutes / 60 * 10)` on exact numbers; Assembly.RoundTenthsNearest states that it is the nearest tenth |
| Assembly.TotalMinutes | server/src/services/scheduler.ts:357-366 | defines the sum of event minutes; Assembly.EventMinutesWithinDay and Assembly.EventEndingAtMidnight state what each event adds |
| Assembly.RoundTenthsNearest | server/src/services/scheduler.ts:374 | the hours are the nearest tenth of the minutes over 60 |
| Assembly.EventMinutesWithinDay | server/src/services/scheduler.ts:357-366 | an event that ends before midnight adds its duration to the total |
| Assembly.EventEndingAtMidnight | server/src/services/scheduler.ts:357-366 | an event that ends exactly at midnight is written ending `00:00`, so it adds minus its start minute to the total |
| Assembly.DaySchedulesDates | server/src/services/scheduler.ts:341-347 | the result has one entry per date with events, in ascending date order |
| Assembly.DayScheduleEvents | server/src/services/scheduler.ts:342-347 | each entry holds exactly its date's events, in start order, and stably sorted |
| Assembly.Assemble | server/src/services/scheduler.ts:341-376 | defines the result list and the summary from the final date map and the pass counts; Pipeline.SummaryAddsUp and Pipeline.ScheduleInRange state its properties |
| Pipeline.FindProject | server/src/services/scheduler.ts:315 | `find` returns the first project with that filename, or none when there is none |
| Pipeline.ProjectPass | server/src/services/scheduler.ts:315-337 | one project pass, or a count of 0 when no project has the name, keeps one load per slot; Pipeline.ProjectPassKeys states what it counts |
| Pipeline.RunPasses | server/src/services/scheduler.ts:305-338 | the routine pass, then the focus pass, then the buffer pass, each keeping one load per slot; Pipeline.RunSound and Pipeline.ScheduledWithinTotal state what the run keeps |
| Pipeline.CreateScheduleSpec | server/src/services/scheduler.ts:298-377 | defines the result of `createSchedule`; Pipeline.CreateSchedule proves the method returns it, and Pipeline.SummaryAddsUp, Pipeline.ScheduleInRange and Pipeline.ZeroWeeks state its properties |
| Pipeline.RunProjectPass | server/src/services/scheduler.ts:315-325 | finding the project and running its pass on the objects is the value-level pass, and the count is 0 when no project has the name |
| Pipeline.RunAll | server/src/services/scheduler.ts:305-338 | the passes on new slots, a new map and a new key set give the value-level date map and counts |
| Pipeline.CreateSchedule | server/src/services/scheduler.ts:298-377 | `createSchedule` returns the value-level result |
| Pipeline.ProjectPassKeys | server/src/services/scheduler.ts:315-337 | a pass counts exactly the keys it adds, and these are keys of the project it found |
| Pipeline.ScheduledWithinTotal | server/src/services/scheduler.ts:372-373 | the two passes never count more tasks than the projects hold, even when focus and buffer name the same project |
| Pipeline.SummaryAddsUp | server/src/services/scheduler.ts:368-376 | scheduled plus unscheduled is the total, and neither is negative |
| Pipeline.RunSound | server/src/services/scheduler.ts:311-338 | after every pass, no slot is over capacity, every event has readable times on the date of a slot, and no routine appears twice a day |
| Pipeline.ScheduleInRange | server/src/services/scheduler.ts:341-347 | every date of the result lies in the horizon, the dates ascend, and each day's events are in start order |
| Pipeline.ZeroWeeks | server/src/services/scheduler.ts:305-307 | with no weeks nothing is scheduled, and every task counts as unscheduled |
| Pipeline.NoSlotsNoTasks | server/src/services/scheduler.ts:264 | without slots a pass places nothing |
| Pipeline.TotalDuration | server/src/services/scheduler.ts:390-393 | defines the sum of task durations; Pipeline.CalculateRequiredWeeks states that the estimate reports it in tenths of hours |
| Pipeline.PlacesAll | server/src/services/scheduler.ts:397-399 | one trial asks whether a full run leaves no task unscheduled |
| Pipeline.SearchWeeks | server/src/services/scheduler.ts:396-413 | the loop returns the smallest horizon from 1 up whose trial places every task, or `maxWeeks` when none up to it does |
| Pipeline.CalculateRequiredWeeks | server/src/services/scheduler.ts:382-414 | the same, together with the total task count and the total task hours in tenths, whether placed or not |

## Left out

- Dates are whole day numbers, with `date % 7` as the weekday and day 0 a Sunday. The model does not have:
  - JavaScript `Date` objects;
  - the parsing of the `startDate` string;
  - time zones, where `new Date("YYYY-MM-DD").getDay()` may shift a day;
  - `formatDate`.

  The `YYYY-MM-DD` keys sort as text in calendar order, which the integer order models.
- Several unused parts of the source are not modelled:
  - the `existingEvents` parameter of `calculateAvailableSlots`, which it never reads;
  - `DAY_MAP`;
  - `totalRoutineTasks` and `scheduledRoutineCount` (scheduler.ts:351-354), computed and never used.
- Slots.WellFormedConfig: the model requires the configured ranges to read as `H:M-H:M` with digit fields only. The source reads its fields with `Number`, which ignores surrounding whitespace and reads an empty field as 0, so ranges with spaces (`09:00 - 10:00`), signs (`+9:00`) or empty fields are read by the source as numbers and are not modelled here; ranges written by the settings editor have the form `start-end` without spaces. A range with a missing field gives a `NaN` duration, which integers cannot express.
- Assembly.RoundTenths and Markdown.ParseDuration compute on exact rationals, not binary floating point. An input whose float rounding differs from exact rounding (`0.1h`-style fractions) may come out one unit apart.
- Assembly.StartKey reads an unreadable start as 0. Every event the passes produce has a readable start, so the sort never meets one.
- Slots.ResolvePreferredTime, Slots.ResolvedTimes, Markdown.CollectKeys and Markdown.LinesKeys treat the source's lookup tables and records as plain maps, without JavaScript's inherited object members. In the source, a preferred time that names an `Object.prototype` member (`toString`, `constructor`, `valueOf`, `__proto__`, …) resolves to that member, not to itself. A frontmatter line with the key `__proto__` is dropped by the record's assignment, not stored. Neither changes a result: no slot start is such a name, so the routine is placed in neither case, and the parsers read only `project`, `priority`, `deadline` and `name` from the record.
- Text.Trim, and the `\s` of the regexes, know only the ASCII whitespace characters: space, tab, line feed, carriage return, vertical tab, form feed. The regexes' `.` excludes only line feed and carriage return, not U+2028 or U+2029.
- Text.ToLower, Text.ToUpper and RoutineParser.Capitalize fold only the ASCII letters A–Z and a–z; JavaScript's `toLowerCase`/`toUpperCase` also fold other Unicode letters.
- Pipeline.CalculateRequiredWeeks, Pipeline.CreateSchedule and Slots.DateRange take the number of weeks as a whole number; the source accepts any number, including fractions.
- Ordering.SortBy models `Array.prototype.sort` by a stable insertion sort. It has the same result, but not the engine's algorithm.
- Ordering.SortDates models the sort of the date keys by repeated selection of the smallest date. It has the same result, but not the engine's algorithm.
- Scheduler.RoutineFitsSlot and Scheduler.FindTaskSlot split the inner loops of `scheduleRoutines` and `scheduleProjectTasks` into a scan method and a test. They take the same branches in the same order.
- The regular expressions are modelled as recognizers over the pieces of a line between `|` characters. The lazy name capture becomes the first `|` after which the rest of the line matches.
- `priority` is kept as the text the frontmatter holds: the parser casts it without checking it.
- The HTTP server, the Google Calendar export and the file loading are not part of this model.
