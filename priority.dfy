/** The priority of a job in the server queue (JPPFPriority): an int value ordered so
    that a higher value sorts first. */
module Priority {
  import opened JavaLang

  datatype JobPriority = JobPriority(value: int)

  /** new JPPFPriority(value).getValue() */
  function NewPriority(value: int): (p: JobPriority)
    ensures p.value == value
  {
    JobPriority(value)
  }

  /** compareTo: 1 against null; otherwise -1, 0 or 1 as this value is above, equal
      to or below the other, by comparison and never by subtraction. */
  function CompareTo(p: JobPriority, o: Option<JobPriority>): (r: int)
    ensures -1 <= r <= 1
    ensures o.None? ==> r == 1
    ensures o.Some? ==> (r < 0 <==> p.value > o.value.value) && (r == 0 <==> p.value == o.value.value)
  {
    if o.None? then 1
    else
      var v2 := o.value.value;
      if p.value > v2 then -1 else if p.value < v2 then 1 else 0
  }

  /** On non-null priorities the comparison is a total order, higher values first:
      antisymmetric, transitive, zero exactly on equal values, whatever the values
      (no overflow, unlike a comparator written as a difference). */
  lemma CompareToIsOrder(a: JobPriority, b: JobPriority, c: JobPriority)
    ensures CompareTo(a, Some(b)) == -CompareTo(b, Some(a))
    ensures CompareTo(a, Some(b)) < 0 && CompareTo(b, Some(c)) < 0 ==> CompareTo(a, Some(c)) < 0
    ensures CompareTo(a, Some(b)) == 0 <==> a == b
    ensures a.value == INT_MAX && b.value == INT_MIN ==> CompareTo(a, Some(b)) < 0
  {
  }
}
