/** The schedules attached to jobs and tasks (JPPFSchedule), as values: a duration,
    or a date with its format. The class itself is not part of this model; a
    duration schedule is taken to have no date and no format, and a date schedule
    a duration of 0. */
module Schedules {
  import opened JavaLang

  datatype Schedule = Schedule(duration: int, date: Option<string>, format: Option<string>)

  /** new JPPFSchedule(duration) */
  function DurationSchedule(duration: int): (s: Schedule)
    ensures s.duration == duration && s.date.None? && s.format.None?
  {
    Schedule(duration, None, None)
  }

  /** new JPPFSchedule(date, format) */
  function DateSchedule(date: Option<string>, format: Option<string>): (s: Schedule)
    ensures s.duration == 0 && s.date == date && s.format == format
  {
    Schedule(0, date, format)
  }
}
