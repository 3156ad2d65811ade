/**
 * `src/utils/subtaskGenerator.ts`: the occurrence details of a task's
 * schedule and the auto-generated subtasks built from them.
 *
 * Dates are day numbers. The calendar (date-fns additions, the weekday and
 * month of a date, and the next date with a given day of the month) is a
 * parameter whose only assumed laws are those `ValidCalendar` states.
 */
module SubtaskGenerator {
  import opened Common
  import opened AuthService
  import opened Tasks
  import opened Recurrence

  /** The calendar operations the generator uses. */
  datatype Calendar = Calendar(
    add: (RecurrenceUnit, int, int) -> int,
    weekday: int -> int,
    month: int -> int,
    monthly: (int, int) -> int)

  /**
   * `add(unit, value, date)` moves forward for a positive value and backward
   * for a negative one. `monthly(date, dom)` is the MONTHLY loop's next date:
   * `new Date(year, month, dom)`, or a month after it when the day of `date`
   * is not below `dom`. For a positive `dom` it lies after `date`. For a
   * negative `dom` the constructed date falls in an earlier month, so the
   * next date is never later than the month of `date`, and a second step
   * from it never moves forward.
   */
  ghost predicate ValidCalendar(cal: Calendar)
  {
    (forall u: RecurrenceUnit, v: int, d: int :: v > 0 ==> cal.add(u, v, d) > d) &&
    (forall u: RecurrenceUnit, v: int, d: int :: v < 0 ==> cal.add(u, v, d) < d) &&
    (forall d: int, dom: int :: dom > 0 ==> cal.monthly(d, dom) > d) &&
    (forall d: int, dom: int :: dom < 0 ==> cal.monthly(cal.monthly(d, dom), dom) <= cal.monthly(d, dom))
  }

  /** What a detail's title and description are built from. */
  datatype Label = Plain | Numbered(n: int) | Weekday(day: int) | MonthOf(month: int)

  /** One occurrence: `startDate`, `endDate` and its tag. */
  datatype Detail = Detail(start: int, end: int, tag: Label)

  /** A generation: the items, an `Error` thrown, or a loop that never ends. */
  datatype Generated<T> = Produced(items: seq<T>) | Fails(error: GenError) | Diverges

  /** The `Error`s the generator throws, one per message. */
  datatype GenError =
    | MissingDates             // "Task start and end date are required"
    | MissingDatesOrFrequency  // "... If task is recurring, frequency is also required"
    | InvalidUnit              // "Invalid recurrence unit"
    | MissingDays              // "Days of week are required"

  /** The dates and recurrence flag of a task; `None` is a missing date. */
  datatype Schedule = Schedule(start: Option<int>, end: Option<int>, isRecurring: bool)

  function Min(a: int, b: int): int { if a > b then b else a }

  // ---------------------------------------------------------------------
  // INTERVAL
  // ---------------------------------------------------------------------

  /** The INTERVAL details from `current` on, numbered from `n`. */
  function IntervalRun(cal: Calendar, unit: RecurrenceUnit, value: int, current: int, end: int, n: int): seq<Detail>
    requires ValidCalendar(cal) && value > 0
    decreases end - current
  {
    if current >= end then []
    else
      var next := Min(cal.add(unit, value, current), end);
      [Detail(current, next, Numbered(n))] + IntervalRun(cal, unit, value, next, end, n + 1)
  }

  /**
   * The details cover `[start, end)` without gaps or overlaps: the first
   * starts at `start`, each ends where the next starts, the last ends at
   * `end`, and none is empty.
   */
  predicate Tiles(ds: seq<Detail>, start: int, end: int)
  {
    (|ds| == 0 <==> start >= end) &&
    (|ds| > 0 ==> ds[0].start == start && ds[|ds| - 1].end == end) &&
    (forall i :: 0 <= i < |ds| ==> ds[i].start < ds[i].end <= end) &&
    (forall i :: 0 <= i < |ds| - 1 ==> ds[i].end == ds[i + 1].start)
  }

  /**
   * The INTERVAL details tile the schedule, each spans one step (cut at the
   * end), and they are numbered `n, n + 1, ...`.
   */
  lemma {:induction false} IntervalTiles(cal: Calendar, unit: RecurrenceUnit, value: int, current: int, end: int, n: int)
    requires ValidCalendar(cal) && value > 0
    ensures var ds := IntervalRun(cal, unit, value, current, end, n);
      Tiles(ds, current, end) &&
      (forall i :: 0 <= i < |ds| ==> ds[i].tag == Numbered(n + i)) &&
      (forall i :: 0 <= i < |ds| ==> ds[i].end == Min(cal.add(unit, value, ds[i].start), end))
    decreases end - current
  {
    if current < end {
      var next := Min(cal.add(unit, value, current), end);
      IntervalTiles(cal, unit, value, next, end, n + 1);
      var rest := IntervalRun(cal, unit, value, next, end, n + 1);
      var ds := IntervalRun(cal, unit, value, current, end, n);
      assert ds == [Detail(current, next, Numbered(n))] + rest;
      assert forall i :: 1 <= i < |ds| ==> ds[i] == rest[i - 1];
    }
  }

  /** One turn of the INTERVAL loop keeps the details gathered so far a prefix of the run. */
  lemma {:induction false} IntervalAdvance(cal: Calendar, unit: RecurrenceUnit, value: int, start: int, current: int, end: int, n: int,
                                            details: seq<Detail>)
    requires ValidCalendar(cal) && value > 0 && current < end
    requires details + IntervalRun(cal, unit, value, current, end, n) == IntervalRun(cal, unit, value, start, end, 1)
    ensures var next := Min(cal.add(unit, value, current), end);
      (details + [Detail(current, next, Numbered(n))]) + IntervalRun(cal, unit, value, next, end, n + 1) ==
      IntervalRun(cal, unit, value, start, end, 1)
  {
    var next := Min(cal.add(unit, value, current), end);
    var d := Detail(current, next, Numbered(n));
    var rest := IntervalRun(cal, unit, value, next, end, n + 1);
    assert IntervalRun(cal, unit, value, current, end, n) == [d] + rest;
    assert details + ([d] + rest) == (details + [d]) + rest;
  }

  /** The INTERVAL loop. */
  method IntervalDetails(cal: Calendar, unit: RecurrenceUnit, value: int, start: int, end: int) returns (details: seq<Detail>)
    requires ValidCalendar(cal) && value > 0
    ensures details == IntervalRun(cal, unit, value, start, end, 1)
  {
    details := [];
    var current := start;
    var occurence := 1;
    while current < end
      invariant occurence == |details| + 1
      invariant details + IntervalRun(cal, unit, value, current, end, occurence) == IntervalRun(cal, unit, value, start, end, 1)
      decreases end - current
    {
      IntervalAdvance(cal, unit, value, start, current, end, occurence, details);
      var nextDate := cal.add(unit, value, current);
      nextDate := if nextDate > end then end else nextDate;
      details := details + [Detail(current, nextDate, Numbered(occurence))];
      occurence := occurence + 1;
      current := nextDate;
    }
  }

  /** With a negative step the loop guard stays true: the date only moves back. */
  lemma NegativeIntervalNeverEnds(cal: Calendar, unit: RecurrenceUnit, value: int, current: int, end: int)
    requires ValidCalendar(cal) && value < 0 && current < end
    ensures Min(cal.add(unit, value, current), end) < current
  {
  }

  // ---------------------------------------------------------------------
  // WEEKLY
  // ---------------------------------------------------------------------

  /** The first date from `n` on that is listed or reaches `max`. */
  function NextListed(cal: Calendar, days: seq<int>, n: int, max: int): (r: int)
    ensures r >= n && (r >= max || cal.weekday(r) in days)
    ensures n <= max ==> r <= max
    ensures forall d :: n <= d < r ==> d < max && cal.weekday(d) !in days
    decreases max - n
  {
    if n >= max || cal.weekday(n) in days then n else NextListed(cal, days, n + 1, max)
  }

  /** `getNextDate`: the day after `current`, moved on to a listed weekday or `max`. */
  method NextDate(cal: Calendar, days: seq<int>, current: int, max: int) returns (nextDate: int)
    ensures nextDate == NextListed(cal, days, current + 1, max)
  {
    nextDate := current + 1;
    while nextDate < max && cal.weekday(nextDate) !in days
      invariant NextListed(cal, days, nextDate, max) == NextListed(cal, days, current + 1, max)
      decreases max - nextDate
    {
      nextDate := nextDate + 1;
    }
  }

  /** The WEEKLY details from `current` on. */
  function WeeklyRun(cal: Calendar, days: seq<int>, current: int, end: int): seq<Detail>
    decreases end - current
  {
    if current >= end then []
    else
      var next := NextListed(cal, days, current + 1, end);
      (if cal.weekday(current) in days then [Detail(current, next, Weekday(cal.weekday(current)))] else []) +
      WeeklyRun(cal, days, next, end)
  }

  predicate StartsAt(ds: seq<Detail>, d: int)
  {
    exists i :: 0 <= i < |ds| && ds[i].start == d
  }

  /**
   * The WEEKLY details start exactly on the listed weekdays of
   * `[current, end)`.
   */
  lemma {:induction false} WeeklyStarts(cal: Calendar, days: seq<int>, current: int, end: int)
    ensures forall d :: StartsAt(WeeklyRun(cal, days, current, end), d) <==> current <= d < end && cal.weekday(d) in days
    decreases end - current
  {
    if current < end {
      var next := NextListed(cal, days, current + 1, end);
      WeeklyStarts(cal, days, next, end);
      var rest := WeeklyRun(cal, days, next, end);
      var ds := WeeklyRun(cal, days, current, end);
      if cal.weekday(current) in days {
        assert ds == [Detail(current, next, Weekday(cal.weekday(current)))] + rest;
        forall d
          ensures StartsAt(ds, d) <==> current <= d < end && cal.weekday(d) in days
        {
          if StartsAt(rest, d) {
            var i :| 0 <= i < |rest| && rest[i].start == d;
            assert ds[i + 1].start == d;
          }
          if StartsAt(ds, d) && d != current {
            var i :| 0 <= i < |ds| && ds[i].start == d;
            assert rest[i - 1].start == d;
          }
          if d == current {
            assert ds[0].start == d;
          }
        }
      } else {
        assert ds == rest;
      }
    }
  }

  /** Each detail runs from a day of `[current, end)` to a listed day (or `end`), tagged with its weekday. */
  predicate WeeklySpans(cal: Calendar, days: seq<int>, current: int, end: int, ds: seq<Detail>)
  {
    forall i :: 0 <= i < |ds| ==>
      current <= ds[i].start < ds[i].end <= end && ds[i].tag == Weekday(cal.weekday(ds[i].start)) &&
      (ds[i].end == end || cal.weekday(ds[i].end) in days)
  }

  /** Each detail ends no later than the next one starts. */
  predicate InOrder(ds: seq<Detail>)
  {
    forall i :: 0 <= i < |ds| - 1 ==> ds[i].end <= ds[i + 1].start
  }

  /**
   * The WEEKLY details each end on a listed day or at `end`; with
   * `WeeklyStarts` and `WeeklyInOrder`, each runs to the next listed day.
   */
  lemma {:induction false} WeeklySpansHold(cal: Calendar, days: seq<int>, current: int, end: int)
    ensures WeeklySpans(cal, days, current, end, WeeklyRun(cal, days, current, end))
    decreases end - current
  {
    if current < end {
      var next := NextListed(cal, days, current + 1, end);
      WeeklySpansHold(cal, days, next, end);
      var rest := WeeklyRun(cal, days, next, end);
      var ds := WeeklyRun(cal, days, current, end);
      if cal.weekday(current) in days {
        assert ds == [Detail(current, next, Weekday(cal.weekday(current)))] + rest;
        forall i | 0 <= i < |ds|
          ensures current <= ds[i].start < ds[i].end <= end && ds[i].tag == Weekday(cal.weekday(ds[i].start)) &&
            (ds[i].end == end || cal.weekday(ds[i].end) in days)
        {
          if i > 0 {
            assert ds[i] == rest[i - 1];
          }
        }
      } else {
        assert ds == rest;
      }
    }
  }

  /** The WEEKLY details are in order. */
  lemma {:induction false} WeeklyInOrder(cal: Calendar, days: seq<int>, current: int, end: int)
    ensures InOrder(WeeklyRun(cal, days, current, end))
    decreases end - current
  {
    if current < end {
      var next := NextListed(cal, days, current + 1, end);
      WeeklyInOrder(cal, days, next, end);
      WeeklySpansHold(cal, days, next, end);
      var rest := WeeklyRun(cal, days, next, end);
      var ds := WeeklyRun(cal, days, current, end);
      if cal.weekday(current) in days {
        assert ds == [Detail(current, next, Weekday(cal.weekday(current)))] + rest;
        forall i | 0 <= i < |ds| - 1
          ensures ds[i].end <= ds[i + 1].start
        {
          assert ds[i + 1] == rest[i];
          if i > 0 {
            assert ds[i] == rest[i - 1];
          }
        }
      } else {
        assert ds == rest;
      }
    }
  }

  /** The detail a WEEKLY turn adds at `current`, if any. */
  function WeeklyHead(cal: Calendar, days: seq<int>, current: int, next: int): seq<Detail>
  {
    if cal.weekday(current) in days then [Detail(current, next, Weekday(cal.weekday(current)))] else []
  }

  /** One turn of the WEEKLY loop keeps the details gathered so far a prefix of the run. */
  lemma {:induction false} WeeklyAdvance(cal: Calendar, days: seq<int>, start: int, current: int, end: int, details: seq<Detail>)
    requires current < end
    requires details + WeeklyRun(cal, days, current, end) == WeeklyRun(cal, days, start, end)
    ensures var next := NextListed(cal, days, current + 1, end);
      (details + WeeklyHead(cal, days, current, next)) + WeeklyRun(cal, days, next, end) == WeeklyRun(cal, days, start, end)
  {
    var next := NextListed(cal, days, current + 1, end);
    var h := WeeklyHead(cal, days, current, next);
    var rest := WeeklyRun(cal, days, next, end);
    assert WeeklyRun(cal, days, current, end) == h + rest;
    assert details + (h + rest) == (details + h) + rest;
  }

  /** The WEEKLY loop. */
  method WeeklyDetails(cal: Calendar, days: seq<int>, start: int, end: int) returns (details: seq<Detail>)
    ensures details == WeeklyRun(cal, days, start, end)
  {
    details := [];
    var current := start;
    while current < end
      invariant details + WeeklyRun(cal, days, current, end) == WeeklyRun(cal, days, start, end)
      decreases end - current
    {
      WeeklyAdvance(cal, days, start, current, end, details);
      var nextDate := NextDate(cal, days, current, end);
      if cal.weekday(current) in days {
        details := details + [Detail(current, nextDate, Weekday(cal.weekday(current)))];
      } else {
        assert details + [] == details;
      }
      current := nextDate;
    }
  }

  // ---------------------------------------------------------------------
  // MONTHLY
  // ---------------------------------------------------------------------

  /** The MONTHLY details from `current` on, for a day of month `dom`. */
  function MonthlyRun(cal: Calendar, dom: int, current: int, end: int): seq<Detail>
    requires ValidCalendar(cal) && dom > 0
    decreases end - current
  {
    if current >= end then []
    else
      var next := Min(cal.monthly(current, dom), end);
      [Detail(current, next, MonthOf(cal.month(current)))] + MonthlyRun(cal, dom, next, end)
  }

  /** The MONTHLY details tile the schedule, each labelled with its month. */
  lemma {:induction false} MonthlyTiles(cal: Calendar, dom: int, current: int, end: int)
    requires ValidCalendar(cal) && dom > 0
    ensures var ds := MonthlyRun(cal, dom, current, end);
      Tiles(ds, current, end) &&
      (forall i :: 0 <= i < |ds| ==> ds[i].tag == MonthOf(cal.month(ds[i].start))) &&
      (forall i :: 0 <= i < |ds| ==> ds[i].end == Min(cal.monthly(ds[i].start, dom), end))
    decreases end - current
  {
    if current < end {
      var next := Min(cal.monthly(current, dom), end);
      MonthlyTiles(cal, dom, next, end);
      var rest := MonthlyRun(cal, dom, next, end);
      var ds := MonthlyRun(cal, dom, current, end);
      assert ds == [Detail(current, next, MonthOf(cal.month(current)))] + rest;
      assert forall i :: 1 <= i < |ds| ==> ds[i] == rest[i - 1];
    }
  }

  /** The MONTHLY loop. */
  method MonthlyDetails(cal: Calendar, dom: int, start: int, end: int) returns (details: seq<Detail>)
    requires ValidCalendar(cal) && dom > 0
    ensures details == MonthlyRun(cal, dom, start, end)
  {
    details := [];
    var current := start;
    while current < end
      invariant details + MonthlyRun(cal, dom, current, end) == MonthlyRun(cal, dom, start, end)
      decreases end - current
    {
      var nextDate := cal.monthly(current, dom);
      nextDate := if nextDate > end then end else nextDate;
      assert MonthlyRun(cal, dom, current, end) ==
        [Detail(current, nextDate, MonthOf(cal.month(current)))] + MonthlyRun(cal, dom, nextDate, end);
      details := details + [Detail(current, nextDate, MonthOf(cal.month(current)))];
      current := nextDate;
    }
  }

  /**
   * A negative `dom`: once a turn has stepped to a date before `end`, the
   * next step is that same kind of date and no later, so the guard
   * `current < end` holds on every later turn and details are pushed forever.
   */
  lemma NegativeMonthlyNeverEnds(cal: Calendar, dom: int, previous: int, end: int)
    requires ValidCalendar(cal) && dom < 0 && cal.monthly(previous, dom) < end
    ensures var current := cal.monthly(previous, dom);
      var next := Min(cal.monthly(current, dom), end);
      next == cal.monthly(current, dom) && next <= current
  {
  }

  /**
   * The MONTHLY loop for a negative `dom`: no turn when the schedule is
   * empty, one detail when the first step reaches `end`, and no end
   * otherwise (`NegativeMonthlyNeverEnds`).
   */
  function NegativeMonthly(cal: Calendar, dom: int, start: int, end: int): Generated<Detail>
  {
    if start >= end then Produced([])
    else if cal.monthly(start, dom) < end then Diverges
    else Produced([Detail(start, end, MonthOf(cal.month(start)))])
  }

  // ---------------------------------------------------------------------
  // generateRecurringSubtasksDetails
  // ---------------------------------------------------------------------

  /** `generateRecurringSubtasksDetails`. */
  function DetailsSpec(cal: Calendar, t: Schedule, freq: Option<Frequency>): Generated<Detail>
    requires ValidCalendar(cal)
  {
    if t.start.None? || t.end.None? then Fails(MissingDates)
    else if !t.isRecurring || freq.None? then Produced([Detail(t.start.value, t.end.value, Plain)])
    else
      var f := freq.value;
      var start, end := t.start.value, t.end.value;
      match f.kind
      case IntervalType =>
        if f.intervalValue.None? || f.intervalValue.value == 0 || !UnitTruthy(f.intervalUnit) then Produced([])
        else if f.intervalUnit.value.Unknown? then Fails(InvalidUnit)
        else if f.intervalValue.value < 0 then (if start < end then Diverges else Produced([]))
        else Produced(IntervalRun(cal, f.intervalUnit.value.unit, f.intervalValue.value, start, end, 1))
      case WeeklyType =>
        if f.daysOfWeek.None? then Fails(MissingDays)
        else Produced(WeeklyRun(cal, f.daysOfWeek.value, start, end))
      case MonthlyType =>
        if f.dayOfMonth.None? || f.dayOfMonth.value == 0 then Produced([])
        else if f.dayOfMonth.value < 0 then NegativeMonthly(cal, f.dayOfMonth.value, start, end)
        else Produced(MonthlyRun(cal, f.dayOfMonth.value, start, end))
  }

  /** `generateRecurringSubtasksDetails`, with its loops. */
  method GenerateDetails(cal: Calendar, t: Schedule, freq: Option<Frequency>) returns (r: Generated<Detail>)
    requires ValidCalendar(cal)
    ensures r == DetailsSpec(cal, t, freq)
  {
    if t.start.None? || t.end.None? {
      return Fails(MissingDates);
    }
    var start, end := t.start.value, t.end.value;
    if !t.isRecurring || freq.None? {
      return Produced([Detail(start, end, Plain)]);
    }
    var f := freq.value;
    var details: seq<Detail> := [];
    match f.kind {
      case IntervalType =>
        if f.intervalValue.None? || f.intervalValue.value == 0 || !UnitTruthy(f.intervalUnit) {
          return Produced([]);
        }
        if f.intervalUnit.value.Unknown? {
          return Fails(InvalidUnit);
        }
        if f.intervalValue.value < 0 {
          return if start < end then Diverges else Produced([]);
        }
        details := IntervalDetails(cal, f.intervalUnit.value.unit, f.intervalValue.value, start, end);
      case WeeklyType =>
        if f.daysOfWeek.None? {
          return Fails(MissingDays);
        }
        details := WeeklyDetails(cal, f.daysOfWeek.value, start, end);
      case MonthlyType =>
        if f.dayOfMonth.None? || f.dayOfMonth.value == 0 {
          return Produced([]);
        }
        if f.dayOfMonth.value < 0 {
          // The first turn; a next date before `end` never lets the loop end.
          if start >= end {
            return Produced([]);
          }
          var nextDate := cal.monthly(start, f.dayOfMonth.value);
          if nextDate < end {
            return Diverges;
          }
          return Produced([Detail(start, end, MonthOf(cal.month(start)))]);
        }
        details := MonthlyDetails(cal, f.dayOfMonth.value, start, end);
    }
    return Produced(details);
  }

  /** A non-recurring task, or one without a frequency, has one detail spanning its dates. */
  lemma OneDetailWithoutRecurrence(cal: Calendar, t: Schedule, freq: Option<Frequency>)
    requires ValidCalendar(cal) && t.start.Some? && t.end.Some?
    requires !t.isRecurring || freq.None?
    ensures DetailsSpec(cal, t, freq) == Produced([Detail(t.start.value, t.end.value, Plain)])
  {
  }

  /**
   * A frequency built by `createRecurrenceFrequencyEntity` with a positive
   * interval and a known unit yields details that tile the schedule.
   */
  lemma CreatedIntervalTiles(cal: Calendar, t: Schedule, p: FrequencyParams)
    requires ValidCalendar(cal) && t.start.Some? && t.end.Some? && t.isRecurring
    requires CreateFrequency(p).Done? && p.kind == Some(IntervalType)
    requires p.intervalValue > 0 && p.intervalUnit.Some? && p.intervalUnit.value.Known?
    ensures DetailsSpec(cal, t, Some(CreateFrequency(p).value)).Produced?
    ensures Tiles(DetailsSpec(cal, t, Some(CreateFrequency(p).value)).items, t.start.value, t.end.value)
  {
    IntervalTiles(cal, p.intervalUnit.value.unit, p.intervalValue, t.start.value, t.end.value, 1);
  }

  // ---------------------------------------------------------------------
  // generateSubtasksForTask
  // ---------------------------------------------------------------------

  /** What generation reads of a task. */
  datatype GenTask = GenTask(
    id: int,
    kind: TaskType,
    schedule: Schedule,
    assignee: Option<UserId>,
    submissionType: SubmissionType)

  /** A generated subtask, before it is saved; every one is auto-generated. */
  datatype NewSubtask = NewSubtask(
    detail: Detail,
    participant: Option<UserId>,
    assignee: Option<UserId>,
    ordinal: int,
    submissionType: SubmissionType)

  /** The subtasks of detail number `index`, one per participant. */
  function Row(t: GenTask, d: Detail, index: int, ps: seq<UserId>): seq<NewSubtask>
  {
    seq(|ps|, j requires 0 <= j < |ps| =>
      NewSubtask(d, Some(ps[j]), if t.kind == ByParticipant then Some(ps[j]) else t.assignee,
                 index * |ps| + j + 1, t.submissionType))
  }

  /** The flattened cross product of details (numbered from `index`) and participants. */
  function Cross(t: GenTask, ds: seq<Detail>, index: int, ps: seq<UserId>): seq<NewSubtask>
    decreases |ds|
  {
    if |ds| == 0 then [] else Row(t, ds[0], index, ps) + Cross(t, ds[1..], index + 1, ps)
  }

  /** The subtasks of a recurring task without participants, numbered from `index`. */
  function Sequential(t: GenTask, ds: seq<Detail>, index: int): seq<NewSubtask>
    decreases |ds|
  {
    if |ds| == 0 then []
    else [NewSubtask(ds[0], None, t.assignee, index + 1, t.submissionType)] + Sequential(t, ds[1..], index + 1)
  }

  /** `generateSubtasksForTask` up to saving: the subtasks it creates. */
  function GenerateSpec(cal: Calendar, t: GenTask, freq: Option<Frequency>, participants: seq<UserId>): Generated<NewSubtask>
    requires ValidCalendar(cal)
  {
    if t.schedule.start.None? || t.schedule.end.None? || (t.schedule.isRecurring && freq.None?) then
      Fails(MissingDatesOrFrequency)
    else if t.kind == ByParticipant || t.kind == PerParticipant then
      match DetailsSpec(cal, t.schedule, freq)
      case Produced(ds) => Produced(Cross(t, ds, 0, participants))
      case Fails(m) => Fails(m)
      case Diverges => Diverges
    else if t.schedule.isRecurring then
      match DetailsSpec(cal, t.schedule, freq)
      case Produced(ds) => Produced(Sequential(t, ds, 0))
      case Fails(m) => Fails(m)
      case Diverges => Diverges
    else Produced([])
  }

  /** A generated subtask as saved: no status, no submission, auto-generated. */
  function Saved(g: NewSubtask, taskId: int, id: int): Subtask
  {
    Subtask(id, taskId, "", None, None, g.ordinal, g.assignee, Some(g.submissionType), true, None)
  }

  /** The saved generated subtasks, with ids from `firstId` on. */
  function SavedAll(gs: seq<NewSubtask>, taskId: int, firstId: int): seq<Subtask>
  {
    seq(|gs|, i requires 0 <= i < |gs| => Saved(gs[i], taskId, firstId + i))
  }

  /** `task.subtasks` afterwards: the new ones after the existing ones, when there are any. */
  function WithGenerated(existing: seq<Subtask>, gs: seq<NewSubtask>, taskId: int, firstId: int): seq<Subtask>
  {
    if |gs| == 0 then existing else existing + SavedAll(gs, taskId, firstId)
  }

  /** Participant ordinals continue across rows: the element at `i` has ordinal `index * m + i + 1`. */
  lemma {:induction false} CrossOrdinals(t: GenTask, ds: seq<Detail>, index: int, ps: seq<UserId>)
    ensures |Cross(t, ds, index, ps)| == |ds| * |ps|
    ensures var c := Cross(t, ds, index, ps);
      forall i :: 0 <= i < |c| ==> c[i].ordinal == index * |ps| + i + 1
    decreases |ds|
  {
    if |ds| > 0 {
      CrossOrdinals(t, ds[1..], index + 1, ps);
      var row := Row(t, ds[0], index, ps);
      var rest := Cross(t, ds[1..], index + 1, ps);
      var c := Cross(t, ds, index, ps);
      assert (index + 1) * |ps| == index * |ps| + |ps|;
      assert |ds| * |ps| == (|ds| - 1) * |ps| + |ps|;
      assert forall i :: |ps| <= i < |c| ==> c[i] == rest[i - |ps|];
    }
  }

  /**
   * Every generated participant subtask names a participant, is assigned
   * to that participant (BY_PARTICIPANT) or to the task's assignee
   * (PER_PARTICIPANT), and takes the task's submission type; every pair of
   * a detail and a participant has one.
   */
  lemma {:induction false} CrossContents(t: GenTask, ds: seq<Detail>, index: int, ps: seq<UserId>)
    ensures var c := Cross(t, ds, index, ps);
      forall x :: x in c ==>
        x.participant.Some? && x.participant.value in ps && x.detail in ds &&
        x.assignee == (if t.kind == ByParticipant then x.participant else t.assignee) &&
        x.submissionType == t.submissionType
    ensures var c := Cross(t, ds, index, ps);
      forall d, p :: d in ds && p in ps ==> exists x :: x in c && x.detail == d && x.participant == Some(p)
    decreases |ds|
  {
    if |ds| > 0 {
      CrossContents(t, ds[1..], index + 1, ps);
      var row := Row(t, ds[0], index, ps);
      var rest := Cross(t, ds[1..], index + 1, ps);
      var c := Cross(t, ds, index, ps);
      assert c == row + rest;
      assert forall d :: d in ds ==> d == ds[0] || d in ds[1..];
      forall d, p | d in ds && p in ps
        ensures exists x :: x in c && x.detail == d && x.participant == Some(p)
      {
        if d == ds[0] {
          var j :| 0 <= j < |ps| && ps[j] == p;
          assert row[j] in c;
        } else {
          var x :| x in rest && x.detail == d && x.participant == Some(p);
          assert x in c;
        }
      }
    }
  }

  /** Sequential subtasks are numbered from `index + 1` and assigned to the task's assignee. */
  lemma {:induction false} SequentialContents(t: GenTask, ds: seq<Detail>, index: int)
    ensures var s := Sequential(t, ds, index);
      |s| == |ds| &&
      forall i :: 0 <= i < |s| ==>
        s[i] == NewSubtask(ds[i], None, t.assignee, index + i + 1, t.submissionType)
    decreases |ds|
  {
    if |ds| > 0 {
      SequentialContents(t, ds[1..], index + 1);
      var s := Sequential(t, ds, index);
      assert forall i :: 1 <= i < |s| ==> s[i] == Sequential(t, ds[1..], index + 1)[i - 1];
    }
  }

  /**
   * The generated subtasks of a participant task carry the ordinals
   * 1..|details|·|participants|, each once; those of a recurring task
   * without participants carry 1..|details|.
   */
  lemma GeneratedOrdinals(cal: Calendar, t: GenTask, freq: Option<Frequency>, participants: seq<UserId>)
    requires ValidCalendar(cal)
    requires GenerateSpec(cal, t, freq, participants).Produced?
    ensures var gs := GenerateSpec(cal, t, freq, participants).items;
      forall i :: 0 <= i < |gs| ==> gs[i].ordinal == i + 1
    ensures t.kind == ByParticipant || t.kind == PerParticipant ==>
      |GenerateSpec(cal, t, freq, participants).items| == |DetailsSpec(cal, t.schedule, freq).items| * |participants|
  {
    if t.kind == ByParticipant || t.kind == PerParticipant {
      CrossOrdinals(t, DetailsSpec(cal, t.schedule, freq).items, 0, participants);
    } else if t.schedule.isRecurring {
      SequentialContents(t, DetailsSpec(cal, t.schedule, freq).items, 0);
    }
  }

  /** A SINGLE task that is not recurring generates nothing; missing dates always throw. */
  lemma GenerationGuards(cal: Calendar, t: GenTask, freq: Option<Frequency>, participants: seq<UserId>)
    requires ValidCalendar(cal)
    ensures t.schedule.start.None? || t.schedule.end.None? || (t.schedule.isRecurring && freq.None?) ==>
      GenerateSpec(cal, t, freq, participants).Fails?
    ensures t.kind == Single && !t.schedule.isRecurring && t.schedule.start.Some? && t.schedule.end.Some? ==>
      GenerateSpec(cal, t, freq, participants) == Produced([])
  {
    if t.schedule.start.None? || t.schedule.end.None? || (t.schedule.isRecurring && freq.None?) {
      assert GenerateSpec(cal, t, freq, participants).Fails?;
    } else if t.kind == Single && !t.schedule.isRecurring {
      assert GenerateSpec(cal, t, freq, participants) == Produced([]);
    }
  }

  /** Dropping auto-generated subtasks from a sequence with a known first element. */
  lemma RemoveAutogeneratedCons(s: Subtask, rest: seq<Subtask>, id: int)
    ensures RemoveAutogenerated([s] + rest, id) ==
      (if s.task != id || !s.autoGenerated || s.submissionDate.Some? then [s] else []) + RemoveAutogenerated(rest, id)
  {
    assert ([s] + rest)[1..] == rest;
  }

  /** Dropping auto-generated subtasks distributes over concatenation. */
  lemma {:induction false} RemoveAutogeneratedAppend(a: seq<Subtask>, b: seq<Subtask>, id: int)
    ensures RemoveAutogenerated(a + b, id) == RemoveAutogenerated(a, id) + RemoveAutogenerated(b, id)
    decreases |a|
  {
    if |a| > 0 {
      var s := a[0];
      var head := if s.task != id || !s.autoGenerated || s.submissionDate.Some? then [s] else [];
      calc {
        RemoveAutogenerated(a + b, id);
        { assert a + b == [s] + (a[1..] + b); }
        RemoveAutogenerated([s] + (a[1..] + b), id);
        { RemoveAutogeneratedCons(s, a[1..] + b, id); }
        head + RemoveAutogenerated(a[1..] + b, id);
        { RemoveAutogeneratedAppend(a[1..], b, id); }
        head + (RemoveAutogenerated(a[1..], id) + RemoveAutogenerated(b, id));
        (head + RemoveAutogenerated(a[1..], id)) + RemoveAutogenerated(b, id);
        { RemoveAutogeneratedCons(s, a[1..], id); assert a == [s] + a[1..]; }
        RemoveAutogenerated(a, id) + RemoveAutogenerated(b, id);
      }
    } else {
      assert a + b == b;
    }
  }

  /** Unsubmitted generated subtasks are all dropped. */
  lemma {:induction false} SavedAllRemoved(gs: seq<NewSubtask>, taskId: int, firstId: int)
    ensures RemoveAutogenerated(SavedAll(gs, taskId, firstId), taskId) == []
    decreases |gs|
  {
    if |gs| > 0 {
      SavedAllRemoved(gs[1..], taskId, firstId + 1);
      assert SavedAll(gs, taskId, firstId)[1..] == SavedAll(gs[1..], taskId, firstId + 1);
    }
  }

  /**
   * Resetting a task's recurrence removes exactly what generation added:
   * after generating, dropping the auto-generated unsubmitted subtasks
   * gives what dropping them gave before.
   */
  lemma ResetUndoesGeneration(existing: seq<Subtask>, gs: seq<NewSubtask>, taskId: int, firstId: int)
    ensures RemoveAutogenerated(WithGenerated(existing, gs, taskId, firstId), taskId) == RemoveAutogenerated(existing, taskId)
  {
    if |gs| > 0 {
      RemoveAutogeneratedAppend(existing, SavedAll(gs, taskId, firstId), taskId);
      SavedAllRemoved(gs, taskId, firstId);
    }
  }

  // ---------------------------------------------------------------------
  // The set-up `createTask` runs after saving the task
  // ---------------------------------------------------------------------

  /** How generation ends, as the set-up sees it. */
  function SetupOf(g: Generated<NewSubtask>): Setup
  {
    match g
    case Produced(_) => SetupDone
    case Fails(_) => SetupThrew
    case Diverges => SetupRunsForever
  }

  /**
   * The `try` block of `createTask` after the task is saved: with
   * `isRecurring` and recurrence details it builds the frequency
   * (`createRecurrenceFrequencyEntity`) and marks the task recurring; a
   * recurring, BY_PARTICIPANT or PER_PARTICIPANT task then has its
   * subtasks generated. `t.schedule.isRecurring` is ignored: a new task
   * is recurring exactly when the frequency is built.
   */
  function CreateTaskSetup(cal: Calendar, t: GenTask, isRecurring: bool, details: Option<FrequencyParams>, participants: seq<UserId>): (s: Setup)
    requires ValidCalendar(cal)
    ensures isRecurring && details.Some? && CreateFrequency(details.value).Thrown? ==> s == SetupThrew
    ensures !(isRecurring && details.Some?) && t.kind == Single ==> s == SetupDone
    ensures (isRecurring && details.Some?) || t.kind == ByParticipant || t.kind == PerParticipant ==>
      (t.schedule.start.None? || t.schedule.end.None? ==> s == SetupThrew)
  {
    var recurring := isRecurring && details.Some?;
    if recurring && CreateFrequency(details.value).Thrown? then SetupThrew
    else
      var freq := if recurring then Some(CreateFrequency(details.value).value) else None;
      var task := t.(schedule := t.schedule.(isRecurring := recurring));
      if recurring || t.kind == ByParticipant || t.kind == PerParticipant then
        SetupOf(GenerateSpec(cal, task, freq, participants))
      else SetupDone
  }

  /**
   * Recurrence details that `createRecurrenceFrequencyEntity` rejects make
   * `createTask` remove the saved task again: no task is left.
   */
  lemma InvalidDetailsLeaveNoTask(cal: Calendar, t: GenTask, details: FrequencyParams, participants: seq<UserId>,
                                  tasks: seq<Task>, phases: map<int, int>, projects: set<int>, req: NewTask)
    requires ValidCalendar(cal) && CreateFrequency(details).Thrown?
    requires req.setup == CreateTaskSetup(cal, t, true, Some(details), participants)
    ensures CreateTaskSpec(tasks, phases, projects, req).1.None?
    ensures CreateTaskSpec(tasks, phases, projects, req).0 in {BadRequest, NotFound}
  {
  }

  /**
   * A MONTHLY task with a negative day whose first step lands before its
   * end date: generation never ends, so `createTask` leaves the task saved
   * and never answers.
   */
  lemma NegativeMonthlyTaskHangs(cal: Calendar, t: GenTask, details: FrequencyParams, participants: seq<UserId>,
                                 tasks: seq<Task>, phases: map<int, int>, projects: set<int>, req: NewTask)
    requires ValidCalendar(cal)
    requires details.kind == Some(MonthlyType) && details.dayOfMonth < 0
    requires t.schedule.start.Some? && t.schedule.end.Some?
    requires t.schedule.start.value < t.schedule.end.value
    requires cal.monthly(t.schedule.start.value, details.dayOfMonth) < t.schedule.end.value
    requires req.setup == CreateTaskSetup(cal, t, true, Some(details), participants)
    ensures req.setup == SetupRunsForever
    ensures CreateTaskSpec(tasks, phases, projects, req).0 != Created
    ensures CreateTaskSpec(tasks, phases, projects, req).1.Some? ==> CreateTaskSpec(tasks, phases, projects, req).0 == NoResponse
  {
    var f := CreateFrequency(details).value;
    assert f.dayOfMonth == Some(details.dayOfMonth);
    var task := t.(schedule := t.schedule.(isRecurring := true));
    assert DetailsSpec(cal, task.schedule, Some(f)) == Diverges;
  }
}
