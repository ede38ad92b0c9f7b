/** The calendar grid of a scheduling run (scheduler.ts, getDateRange to
    scheduleInSlot): the days of the horizon, the slots the configured ranges
    cut from them, the tests a slot must pass and the one operation that fills
    a slot. Dates are day numbers; `date % 7` is the day of the week, 0 being a
    Sunday. */
module Slots {
  import opened Types
  import opened Text
  import opened Clock

  // ---------------------------------------------------------------- days

  /** `DAY_NAMES[date.getDay()]`. */
  function DayName(date: int): string
  {
    DayNames[date % 7]
  }

  /** The names of the seven days from `date` on. */
  function WeekFrom(date: int): seq<string>
  {
    seq(7, i => DayName(date + i))
  }

  /** Names repeat every seven days, and the seven days from any start carry
      all seven names. */
  lemma DayNameWeekly(date: int)
    ensures DayName(date + 7) == DayName(date)
    ensures forall n :: 0 <= n < 7 ==> DayNames[n] in WeekFrom(date)
  {
    forall n | 0 <= n < 7
      ensures DayNames[n] in WeekFrom(date)
    {
      var i := (n - date % 7 + 7) % 7;
      assert (date + i) % 7 == n;
      assert WeekFrom(date)[i] == DayNames[n];
    }
  }

  /** The days `current`, `current + 1`, ... strictly before `end`: what the
      `while (current < endDate)` loop of getDateRange pushes. */
  function DaysBefore(current: int, end: int): seq<int>
    decreases end - current
  {
    if current < end then [current] + DaysBefore(current + 1, end) else []
  }

  /** getDateRange: the days from `start` up to `weeks * 7` days later. */
  function DateRange(start: int, weeks: int): seq<int>
  {
    DaysBefore(start, start + weeks * 7)
  }

  lemma {:induction false} DaysBeforeShape(current: int, end: int)
    ensures |DaysBefore(current, end)| == if current < end then end - current else 0
    ensures forall i :: 0 <= i < |DaysBefore(current, end)| ==>
              DaysBefore(current, end)[i] == current + i
    decreases end - current
  {
    if current < end {
      DaysBeforeShape(current + 1, end);
    }
  }

  /** The horizon is exactly `weeks * 7` consecutive days from `start`, and
      none at all when `weeks` is zero or negative. */
  lemma DateRangeShape(start: int, weeks: int)
    ensures |DateRange(start, weeks)| == if weeks <= 0 then 0 else weeks * 7
    ensures forall i :: 0 <= i < |DateRange(start, weeks)| ==>
              DateRange(start, weeks)[i] == start + i
  {
    DaysBeforeShape(start, start + weeks * 7);
  }

  /** getDateRange. */
  method GetDateRange(start: int, weeks: int) returns (dates: seq<int>)
    ensures dates == DateRange(start, weeks)
  {
    dates := [];
    var endDate := start + weeks * 7;
    var current := start;
    while current < endDate
      invariant dates + DaysBefore(current, endDate) == DaysBefore(start, endDate)
      decreases endDate - current
    {
      dates := dates + [current];
      current := current + 1;
    }
  }

  // ---------------------------------------------------------------- slots

  /** A configured "HH:MM-HH:MM" range that `timeRange.split('-')` and
      timeToMinutes can read: its first two pieces are clock times. */
  predicate IsRange(range: string)
  {
    var p := Split(range, '-');
    |p| >= 2 && IsClock(p[0]) && IsClock(p[1])
  }

  /** Every configured range of every weekday is readable. */
  predicate WellFormedConfig(c: Config)
  {
    forall day :: day in c.available ==>
      forall i :: 0 <= i < |c.available[day]| ==> IsRange(c.available[day][i])
  }

  /** The fixed part of a TimeSlot: everything but the `used` counter. */
  datatype SlotInfo = SlotInfo(date: int, start: string, end: string, duration: int)

  /** The slot one range makes on one day: its duration is end minus start in
      minutes, negative when the range runs backwards. */
  function RangeSlot(date: int, range: string): (r: SlotInfo)
    requires IsRange(range)
    ensures r.date == date && IsClock(r.start) && IsClock(r.end)
    ensures r.start + ['-'] + r.end <= range
    ensures r.duration == TimeToMinutes(r.end) - TimeToMinutes(r.start)
  {
    var p := Split(range, '-');
    JoinSplit(range, '-');
    assert range == p[0] + ['-'] + Join(p[1..], '-');
    assert p[1] <= Join(p[1..], '-');
    SlotInfo(date, p[0], p[1], TimeToMinutes(p[1]) - TimeToMinutes(p[0]))
  }

  /** `config.available[dayName] || []`. */
  function DayRanges(c: Config, date: int): seq<string>
  {
    if DayName(date) in c.available then c.available[DayName(date)] else []
  }

  /** The slots of one day, one per configured range, in configured order. */
  function DaySlots(c: Config, date: int): (r: seq<SlotInfo>)
    requires WellFormedConfig(c)
    ensures |r| == |DayRanges(c, date)|
    ensures forall j :: 0 <= j < |r| ==> r[j] == RangeSlot(date, DayRanges(c, date)[j])
  {
    var rs := DayRanges(c, date);
    seq(|rs|, j requires 0 <= j < |rs| => RangeSlot(date, rs[j]))
  }

  /** The slots of calculateAvailableSlots: day by day, each day's slots in
      configured order. Every slot lies on one of the given days and starts at
      a readable time. */
  function SlotInfos(c: Config, dates: seq<int>): (r: seq<SlotInfo>)
    requires WellFormedConfig(c)
    ensures forall k :: 0 <= k < |r| ==> r[k].date in dates && IsClock(r[k].start)
  {
    if dates == [] then []
    else SlotInfos(c, dates[..|dates| - 1]) + DaySlots(c, dates[|dates| - 1])
  }

  lemma SlotInfosStep(c: Config, dates: seq<int>, i: nat)
    requires WellFormedConfig(c) && i < |dates|
    ensures SlotInfos(c, dates[..i + 1]) == SlotInfos(c, dates[..i]) + DaySlots(c, dates[i])
  {
    var p := dates[..i + 1];
    assert p[..|p| - 1] == dates[..i] && p[|p| - 1] == dates[i];
  }

  /** Slots come out in the order of their days. */
  lemma {:induction false} SlotsInDateOrder(c: Config, dates: seq<int>)
    requires WellFormedConfig(c)
    requires forall i, j :: 0 <= i < j < |dates| ==> dates[i] < dates[j]
    ensures forall k, l :: 0 <= k < l < |SlotInfos(c, dates)| ==>
              SlotInfos(c, dates)[k].date <= SlotInfos(c, dates)[l].date
  {
    if dates != [] {
      var init := dates[..|dates| - 1];
      var last := dates[|dates| - 1];
      SlotsInDateOrder(c, init);
      var a := SlotInfos(c, init);
      var b := DaySlots(c, last);
      assert SlotInfos(c, dates) == a + b;
      forall k | 0 <= k < |a|
        ensures a[k].date < last
      {
        var i :| 0 <= i < |init| && init[i] == a[k].date;
      }
    }
  }

  /** No days, no slots: a horizon of zero weeks offers nothing to place into. */
  lemma NoDaysNoSlots(c: Config, start: int, weeks: int)
    requires WellFormedConfig(c) && weeks <= 0
    ensures SlotInfos(c, DateRange(start, weeks)) == []
  {
    DateRangeShape(start, weeks);
  }

  /** The sum of a slot's placed durations. */
  function Sum(ds: seq<nat>): nat
  {
    if ds == [] then 0 else Sum(ds[..|ds| - 1]) + ds[|ds| - 1]
  }

  lemma SumAppend(ds: seq<nat>, d: nat)
    ensures Sum(ds + [d]) == Sum(ds) + d
  {
    assert (ds + [d])[..|ds|] == ds;
  }

  lemma {:induction false} SumPrefixGrows(ds: seq<nat>, i: nat, j: nat)
    requires i <= j <= |ds|
    ensures Sum(ds[..i]) <= Sum(ds[..j])
    decreases j - i
  {
    if i < j {
      SumPrefixGrows(ds, i, j - 1);
      assert ds[..j][..j - 1] == ds[..j - 1];
    }
  }

  /** Placement `i` of a slot occupies the minutes from `Sum(ds[..i])` to
      `Sum(ds[..i]) + ds[i]` after the slot's start: it ends before any later
      placement begins, and within the slot's total use. */
  lemma PlacementsDisjoint(ds: seq<nat>, i: nat, j: nat)
    requires i < j < |ds|
    ensures Sum(ds[..i]) + ds[i] <= Sum(ds[..j])
    ensures Sum(ds[..j]) + ds[j] <= Sum(ds)
  {
    assert ds[..i + 1][..i] == ds[..i];
    SumPrefixGrows(ds, i + 1, j);
    assert ds[..j + 1][..j] == ds[..j];
    SumPrefixGrows(ds, j + 1, |ds|);
    assert ds[..|ds|] == ds;
  }

  /** A slot of the run: the fixed range plus the minutes `used` so far.
      `placed` records the duration of each placement, in order. */
  class TimeSlot {
    const date: int
    const start: string
    const end: string
    const duration: int
    var used: int
    ghost var placed: seq<nat>

    ghost predicate Valid()
      reads this
    {
      IsClock(start) && used == Sum(placed)
    }

    function Info(): SlotInfo
    {
      SlotInfo(date, start, end, duration)
    }

    constructor (info: SlotInfo)
      requires IsClock(info.start)
      ensures Info() == info && placed == [] && Valid()
    {
      date, start, end, duration := info.date, info.start, info.end, info.duration;
      used := 0;
      placed := [];
    }
  }

  function Infos(slots: seq<TimeSlot>): (r: seq<SlotInfo>)
    ensures |r| == |slots|
  {
    seq(|slots|, k requires 0 <= k < |slots| => slots[k].Info())
  }

  lemma InfosAppend(slots: seq<TimeSlot>, slot: TimeSlot)
    ensures Infos(slots + [slot]) == Infos(slots) + [slot.Info()]
  {
  }

  ghost function Loads(slots: seq<TimeSlot>): (r: seq<seq<nat>>)
    reads slots
    ensures |r| == |slots|
  {
    seq(|slots|, k requires 0 <= k < |slots| reads slots => slots[k].placed)
  }

  /** No slot has been placed into yet. */
  ghost predicate Unused(slots: seq<TimeSlot>)
    reads slots
  {
    forall k :: 0 <= k < |slots| ==> slots[k].placed == []
  }

  /** Distinct slot objects, each with a readable start and `used` equal to
      the sum of its placements. */
  ghost predicate SlotsValid(slots: seq<TimeSlot>)
    reads slots
  {
    (forall i, j :: 0 <= i < j < |slots| ==> slots[i] != slots[j])
    && forall k :: 0 <= k < |slots| ==> slots[k].Valid()
  }

  /** Appending a new, unused slot keeps the slots distinct, valid and unused. */
  lemma AppendSlot(slots: seq<TimeSlot>, slot: TimeSlot)
    requires SlotsValid(slots) && Unused(slots) && slot !in slots
    requires slot.Valid() && slot.placed == []
    ensures SlotsValid(slots + [slot]) && Unused(slots + [slot])
  {
  }

  /** The inner loop of calculateAvailableSlots: a fresh, unused slot for each
      of one day's ranges, pushed in order. */
  method PushSlots(slots: seq<TimeSlot>, day: seq<SlotInfo>) returns (r: seq<TimeSlot>)
    requires SlotsValid(slots) && Unused(slots)
    requires forall j :: 0 <= j < |day| ==> IsClock(day[j].start)
    ensures Infos(r) == Infos(slots) + day
    ensures SlotsValid(r) && Unused(r)
    ensures r[..|slots|] == slots && forall x :: x in r ==> x in slots || fresh(x)
  {
    r := slots;
    for j := 0 to |day|
      invariant Infos(r) == Infos(slots) + day[..j]
      invariant SlotsValid(r) && Unused(r)
      invariant |r| == |slots| + j && r[..|slots|] == slots
      invariant forall x :: x in r ==> x in slots || fresh(x)
    {
      var slot := new TimeSlot(day[j]);
      AppendSlot(r, slot);
      InfosAppend(r, slot);
      assert day[..j + 1] == day[..j] + [day[j]];
      r := r + [slot];
    }
    assert day[..|day|] == day;
  }

  /** calculateAvailableSlots: one fresh, unused slot per configured range of
      each day, in the order of SlotInfos. (`existingEvents` is not used by
      the source and is not modelled.) */
  method CalculateAvailableSlots(c: Config, dates: seq<int>) returns (slots: seq<TimeSlot>)
    requires WellFormedConfig(c)
    ensures Infos(slots) == SlotInfos(c, dates)
    ensures SlotsValid(slots) && Unused(slots)
    ensures forall k :: 0 <= k < |slots| ==> fresh(slots[k])
  {
    slots := [];
    for i := 0 to |dates|
      invariant Infos(slots) == SlotInfos(c, dates[..i])
      invariant SlotsValid(slots) && Unused(slots)
      invariant forall x :: x in slots ==> fresh(x)
    {
      slots := PushSlots(slots, DaySlots(c, dates[i]));
      SlotInfosStep(c, dates, i);
    }
    assert dates[..|dates|] == dates;
    assert forall k :: 0 <= k < |slots| ==> slots[k] in slots;
  }

  // ---------------------------------------------------------------- tests on a slot

  /** resolvePreferredTime: no preference (null or empty) stays none, the
      three keywords become their clock times, anything else passes through. */
  function ResolvePreferredTime(preferred: Option<string>): Option<string>
  {
    match preferred
    case None => None
    case Some(t) =>
      if t == "" then None
      else if t == "morning" then Some("09:00")
      else if t == "afternoon" then Some("13:00")
      else if t == "evening" then Some("19:00")
      else Some(t)
  }

  /** The keyword table and its fall-through, and the fact that resolving is
      idempotent: a resolved time is never a keyword or empty. */
  lemma ResolvedTimes(t: string)
    ensures ResolvePreferredTime(Some("morning")) == Some("09:00")
    ensures ResolvePreferredTime(Some("afternoon")) == Some("13:00")
    ensures ResolvePreferredTime(Some("evening")) == Some("19:00")
    ensures t !in {"", "morning", "afternoon", "evening"} ==>
              ResolvePreferredTime(Some(t)) == Some(t)
    ensures ResolvePreferredTime(ResolvePreferredTime(Some(t))) == ResolvePreferredTime(Some(t))
  {
  }

  /** canFitInSlot: the free minutes of the slot cover `duration`. */
  function CanFitInSlot(info: SlotInfo, used: int, duration: int): bool
  {
    info.duration - used >= duration
  }

  /** isSlotSuitableForBlockType: `short` accepts a slot when its free time is
      at most or at least 60 minutes, `long` needs 180 free minutes, `any`
      accepts every slot. */
  function IsSlotSuitableForBlockType(info: SlotInfo, used: int, b: BlockType): bool
  {
    var available := info.duration - used;
    match b
    case Short => available <= 60 || available >= 60
    case Long => available >= 180
    case Any => true
  }

  /** Only `long` ever rejects a slot, and exactly when fewer than 180
      minutes are free. */
  lemma {:induction false} SuitableUnlessLong(info: SlotInfo, used: int, b: BlockType)
    ensures IsSlotSuitableForBlockType(info, used, b) <==>
              (b != Long || info.duration - used >= 180)
  {
  }

  // ---------------------------------------------------------------- filling a slot

  /** The event scheduleInSlot returns for a slot that has `used` minutes
      taken: it runs from `start + used` to `start + used + duration`, each
      rendered by minutesToTime. */
  function SlotEvent(info: SlotInfo, used: nat, duration: nat, title: string,
                     kind: EventType, source: string, taskId: Option<string>): ScheduledEvent
    requires IsClock(info.start)
  {
    var startMinutes := TimeToMinutes(info.start) + used;
    ScheduledEvent(MinutesToTime(startMinutes), MinutesToTime(startMinutes + duration),
                   title, kind, source, taskId)
  }

  /** The event starts `used` minutes into the slot and lasts `duration`
      minutes, both read back modulo one day. */
  lemma {:induction false} SlotEventTimes(info: SlotInfo, used: nat, duration: nat, title: string,
                                          kind: EventType, source: string, taskId: Option<string>)
    requires IsClock(info.start)
    ensures var e := SlotEvent(info, used, duration, title, kind, source, taskId);
            IsClock(e.start) && IsClock(e.end)
            && TimeToMinutes(e.start) == (TimeToMinutes(info.start) + used) % MinutesPerDay
            && TimeToMinutes(e.end) == (TimeToMinutes(info.start) + used + duration) % MinutesPerDay
  {
    RenderedEvent(SlotEvent(info, used, duration, title, kind, source, taskId),
                  TimeToMinutes(info.start) + used, duration);
  }

  /** When the event ends before midnight, its end minus its start is
      exactly `duration`. */
  lemma SlotEventSpan(info: SlotInfo, used: nat, duration: nat, title: string,
                      kind: EventType, source: string, taskId: Option<string>)
    requires IsClock(info.start)
    requires TimeToMinutes(info.start) + used + duration < MinutesPerDay
    ensures var e := SlotEvent(info, used, duration, title, kind, source, taskId);
            IsClock(e.start) && IsClock(e.end) && TimeToMinutes(e.end) - TimeToMinutes(e.start) == duration
  {
    var e := SlotEvent(info, used, duration, title, kind, source, taskId);
    SlotEventTimes(info, used, duration, title, kind, source, taskId);
    SpanWithinDay(TimeToMinutes(e.start), TimeToMinutes(e.end), TimeToMinutes(info.start) + used, duration);
  }

  lemma WithinDay(m: nat)
    requires m < MinutesPerDay
    ensures m % MinutesPerDay == m
  {
  }

  /** Read back modulo one day, a span that ends before midnight keeps its
      length. */
  lemma SpanWithinDay(a: int, b: int, s: nat, duration: nat)
    requires a == s % MinutesPerDay && b == (s + duration) % MinutesPerDay
    requires s + duration < MinutesPerDay
    ensures b - a == duration
  {
    WithinDay(s);
    WithinDay(s + duration);
  }

  /** An event rendered from minute `s` to minute `s + duration` reads back
      as those minutes modulo one day. */
  lemma RenderedEvent(e: ScheduledEvent, s: nat, duration: nat)
    requires e.start == MinutesToTime(s) && e.end == MinutesToTime(s + duration)
    ensures IsClock(e.start) && IsClock(e.end)
    ensures TimeToMinutes(e.start) == s % MinutesPerDay
    ensures TimeToMinutes(e.end) == (s + duration) % MinutesPerDay
  {
    MinutesRoundTrip(s);
    MinutesRoundTrip(s + duration);
  }

  /** scheduleInSlot: returns the event at the slot's first free minute and
      adds `duration` to that slot's `used`; nothing else changes. */
  method ScheduleInSlot(slot: TimeSlot, duration: nat, title: string, kind: EventType,
                        source: string, taskId: Option<string>) returns (e: ScheduledEvent)
    requires slot.Valid()
    modifies slot
    ensures slot.Valid()
    ensures slot.used == old(slot.used) + duration
    ensures slot.placed == old(slot.placed) + [duration]
    ensures e == SlotEvent(slot.Info(), Sum(old(slot.placed)), duration, title, kind, source, taskId)
  {
    // The event spans `start + used` to `start + used + duration`.
    e := SlotEvent(slot.Info(), slot.used, duration, title, kind, source, taskId);
    SumAppend(slot.placed, duration);
    slot.used := slot.used + duration;
    slot.placed := slot.placed + [duration];
  }
}
