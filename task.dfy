/** The base class of user tasks (JPPFTask): position, result, exception, id, the
    in-node flag and a single timeout schedule shared by the duration and the date
    forms of the timeout. */
module Task {
  import opened JavaLang
  import opened Schedules

  /** A result or an exception object, by identity. */
  datatype Value = Value(id: nat)

  class JppfTask {
    var position: int
    var result: Option<Value>
    var exception: Option<Value>
    var timeoutSchedule: Option<Schedule>
    var inNode: bool
    var id: Option<string>

    /** new JPPFTask(): nothing set, not in a node. */
    constructor ()
      ensures position == 0 && result.None? && exception.None? && timeoutSchedule.None?
      ensures !inNode && id.None?
    {
      position := 0;
      result := None;
      exception := None;
      timeoutSchedule := None;
      inNode := false;
      id := None;
    }

    method SetPosition(p: int)
      modifies this
      ensures position == p
      ensures result == old(result) && exception == old(exception) && timeoutSchedule == old(timeoutSchedule)
      ensures inNode == old(inNode) && id == old(id)
    {
      position := p;
    }

    method SetResult(r: Option<Value>)
      modifies this
      ensures result == r
      ensures position == old(position) && exception == old(exception) && timeoutSchedule == old(timeoutSchedule)
      ensures inNode == old(inNode) && id == old(id)
    {
      result := r;
    }

    method SetException(e: Option<Value>)
      modifies this
      ensures exception == e
      ensures position == old(position) && result == old(result) && timeoutSchedule == old(timeoutSchedule)
      ensures inNode == old(inNode) && id == old(id)
    {
      exception := e;
    }

    method SetId(s: Option<string>)
      modifies this
      ensures id == s
      ensures position == old(position) && result == old(result) && exception == old(exception)
      ensures timeoutSchedule == old(timeoutSchedule) && inNode == old(inNode)
    {
      id := s;
    }

    method SetInNode(b: bool)
      modifies this
      ensures inNode == b
      ensures position == old(position) && result == old(result) && exception == old(exception)
      ensures timeoutSchedule == old(timeoutSchedule) && id == old(id)
    {
      inNode := b;
    }

    /** getTimeout: 0 without a schedule, the schedule's duration otherwise. */
    method GetTimeout() returns (t: int)
      ensures timeoutSchedule.None? ==> t == 0
      ensures timeoutSchedule.Some? ==> t == timeoutSchedule.value.duration
    {
      t := if timeoutSchedule.None? then 0 else timeoutSchedule.value.duration;
    }

    /** getTimeoutDate: null without a schedule. */
    method GetTimeoutDate() returns (d: Option<string>)
      ensures timeoutSchedule.None? ==> d.None?
      ensures timeoutSchedule.Some? ==> d == timeoutSchedule.value.date
    {
      d := if timeoutSchedule.None? then None else timeoutSchedule.value.date;
    }

    /** getTimeoutFormat: null without a schedule. */
    method GetTimeoutFormat() returns (f: Option<string>)
      ensures timeoutSchedule.None? ==> f.None?
      ensures timeoutSchedule.Some? ==> f == timeoutSchedule.value.format
    {
      f := if timeoutSchedule.None? then None else timeoutSchedule.value.format;
    }

    /** setTimeout: a new duration schedule replaces whatever schedule was set. */
    method SetTimeout(t: int)
      modifies this
      ensures timeoutSchedule == Some(DurationSchedule(t))
      ensures position == old(position) && result == old(result) && exception == old(exception)
      ensures inNode == old(inNode) && id == old(id)
    {
      timeoutSchedule := Some(DurationSchedule(t));
    }

    /** setTimeoutDate: a new date schedule replaces whatever schedule was set. */
    method SetTimeoutDate(date: Option<string>, format: Option<string>)
      modifies this
      ensures timeoutSchedule == Some(DateSchedule(date, format))
      ensures position == old(position) && result == old(result) && exception == old(exception)
      ensures inNode == old(inNode) && id == old(id)
    {
      timeoutSchedule := Some(DateSchedule(date, format));
    }

    method SetTimeoutSchedule(s: Option<Schedule>)
      modifies this
      ensures timeoutSchedule == s
      ensures position == old(position) && result == old(result) && exception == old(exception)
      ensures inNode == old(inNode) && id == old(id)
    {
      timeoutSchedule := s;
    }

    /** addJPPFTaskListener, removeJPPFTaskListener and fireNotification are kept
        for compatibility and change nothing: no frame, so no field can change. */
    method AddTaskListener(listener: Value)
    {
    }

    method RemoveTaskListener(listener: Value)
    {
    }

    method FireNotification(source: Value)
    {
    }
  }
}
