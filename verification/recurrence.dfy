/**
 * Recurrence frequencies: the record `createRecurrenceFrequencyEntity` in
 * `src/controller/RecurrenceFrequencyController.ts` builds from request
 * parameters, keeping only the fields of the chosen type.
 */
module Recurrence {
  import opened Common

  datatype RecurrenceType = IntervalType | WeeklyType | MonthlyType

  datatype RecurrenceUnit = Days | Weeks | Months | Years

  /** A unit as stored or sent: one of the enum values, or any other text. */
  datatype UnitText = Known(unit: RecurrenceUnit) | Unknown(text: string)

  /** The truthiness of a unit value: only the empty text is falsy. */
  predicate UnitTruthy(u: Option<UnitText>)
  {
    u.Some? && (u.value.Unknown? ==> |u.value.text| > 0)
  }

  /** A `RecurrenceFrequency` row; `None` is a `null` column. */
  datatype Frequency = Frequency(
    kind: RecurrenceType,
    intervalValue: Option<int>,
    intervalUnit: Option<UnitText>,
    daysOfWeek: Option<seq<int>>,
    dayOfMonth: Option<int>)

  /**
   * The parameters: `kind` is `None` for a text that is no recurrence type;
   * numbers are 0 when absent (both are falsy); an empty array is truthy.
   */
  datatype FrequencyParams = FrequencyParams(
    kind: Option<RecurrenceType>,
    intervalValue: int,
    intervalUnit: Option<UnitText>,
    daysOfWeek: Option<seq<int>>,
    dayOfMonth: int)

  /** `createRecurrenceFrequencyEntity`. */
  function CreateFrequency(p: FrequencyParams): (r: Outcome<Frequency>)
    ensures r.Done? <==>
      (p.kind == Some(IntervalType) && p.intervalValue != 0 && UnitTruthy(p.intervalUnit)) ||
      (p.kind == Some(WeeklyType) && p.daysOfWeek.Some?) ||
      (p.kind == Some(MonthlyType) && p.dayOfMonth != 0)
    ensures r.Thrown? ==> r.message == "Invalid frequency parameters"
    ensures r.Done? ==> Some(r.value.kind) == p.kind
    ensures r.Done? && r.value.kind == IntervalType ==>
      r.value == Frequency(IntervalType, Some(p.intervalValue), p.intervalUnit, None, None)
    ensures r.Done? && r.value.kind == WeeklyType ==>
      r.value == Frequency(WeeklyType, None, None, p.daysOfWeek, None)
    ensures r.Done? && r.value.kind == MonthlyType ==>
      r.value == Frequency(MonthlyType, None, None, None, Some(p.dayOfMonth))
  {
    if p.kind == Some(IntervalType) && p.intervalValue != 0 && UnitTruthy(p.intervalUnit) then
      Done(Frequency(IntervalType, Some(p.intervalValue), p.intervalUnit, None, None))
    else if p.kind == Some(WeeklyType) && p.daysOfWeek.Some? then
      Done(Frequency(WeeklyType, None, None, p.daysOfWeek, None))
    else if p.kind == Some(MonthlyType) && p.dayOfMonth != 0 then
      Done(Frequency(MonthlyType, None, None, None, Some(p.dayOfMonth)))
    else Thrown("Invalid frequency parameters")
  }

  /** The fields a frequency of each type carries, and no others. */
  predicate WellShaped(f: Frequency)
  {
    match f.kind
    case IntervalType =>
      f.intervalValue.Some? && f.intervalValue.value != 0 && UnitTruthy(f.intervalUnit) &&
      f.daysOfWeek.None? && f.dayOfMonth.None?
    case WeeklyType =>
      f.intervalValue.None? && f.intervalUnit.None? && f.daysOfWeek.Some? && f.dayOfMonth.None?
    case MonthlyType =>
      f.intervalValue.None? && f.intervalUnit.None? && f.daysOfWeek.None? &&
      f.dayOfMonth.Some? && f.dayOfMonth.value != 0
  }

  /** Every frequency that is created is well shaped. */
  lemma CreatedFrequencyShape(p: FrequencyParams)
    ensures CreateFrequency(p).Done? ==> WellShaped(CreateFrequency(p).value)
  {
  }

  /** The parameters that re-create a frequency from its own fields. */
  function ParamsOf(f: Frequency): FrequencyParams
  {
    FrequencyParams(
      Some(f.kind),
      if f.intervalValue.Some? then f.intervalValue.value else 0,
      f.intervalUnit,
      f.daysOfWeek,
      if f.dayOfMonth.Some? then f.dayOfMonth.value else 0)
  }

  /** Every well-shaped frequency is what its own fields create. */
  lemma WellShapedRoundTrip(f: Frequency)
    requires WellShaped(f)
    ensures CreateFrequency(ParamsOf(f)) == Done(f)
  {
  }
}
