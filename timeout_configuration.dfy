/** A timeout given either as a duration or as a date with its format
    (JPPFTimeoutConfiguration); setting one form clears the other. */
module TimeoutConfiguration {
  import opened JavaLang

  /** A SimpleDateFormat, by identity. */
  datatype DateFormat = DateFormat(pattern: string)

  class Timeout {
    var timeout: int
    var date: Option<string>
    var dateFormat: Option<DateFormat>

    /** A non-zero duration excludes a date and a format. */
    predicate Exclusive()
      reads this
    {
      timeout != 0 ==> date.None? && dateFormat.None?
    }

    /** new JPPFTimeoutConfiguration(duration) */
    constructor FromDuration(duration: int)
      ensures timeout == duration && date.None? && dateFormat.None?
      ensures Exclusive()
    {
      timeout := duration;
      date := None;
      dateFormat := None;
    }

    /** new JPPFTimeoutConfiguration(date, dateFormat) */
    constructor FromDate(date: Option<string>, dateFormat: Option<DateFormat>)
      ensures timeout == 0 && this.date == date && this.dateFormat == dateFormat
      ensures Exclusive()
    {
      timeout := 0;
      this.date := date;
      this.dateFormat := dateFormat;
    }

    /** setTimeout: the duration replaces any date and format. */
    method SetTimeout(t: int)
      modifies this
      ensures timeout == t && date.None? && dateFormat.None?
      ensures Exclusive()
    {
      timeout := t;
      date := None;
      dateFormat := None;
    }

    /** setDate: the date and format replace any duration. */
    method SetDate(d: Option<string>, f: Option<DateFormat>)
      modifies this
      ensures timeout == 0 && date == d && dateFormat == f
      ensures Exclusive()
    {
      timeout := 0;
      date := d;
      dateFormat := f;
    }
  }
}
