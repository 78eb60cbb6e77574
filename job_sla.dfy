/** The service level agreement of a job (JPPFJobSLA): execution policy, priority,
    maximum number of nodes, suspended flag, start and expiration schedules,
    broadcast flag and cancel-upon-client-disconnect flag. */
module JobSla {
  import opened JavaLang
  import opened Schedules

  /** An execution policy, by identity (its rules are not part of this model). */
  datatype Policy = Policy(id: nat)

  /** The eight fields of an SLA, as one value. */
  datatype SlaFields = SlaFields(
    policy: Option<Policy>,
    priority: int,
    maxNodes: int,
    suspended: bool,
    jobSchedule: Option<Schedule>,
    expirationSchedule: Option<Schedule>,
    broadcast: bool,
    cancelUponClientDisconnect: bool)

  /** The constructor's and setMaxNodes' rule: a value that is not positive means
      "no limit", Integer.MAX_VALUE. */
  function NormalizeMaxNodes(n: int): (r: int)
    requires IsInt(n)
    ensures 1 <= r <= INT_MAX
    ensures n > 0 <==> r == n
  {
    if n > 0 then n else INT_MAX
  }

  /** Normalising twice changes nothing, and any valid maxNodes is its own
      normalisation: this is what lets copy() go through the setter unchanged. */
  lemma NormalizeMaxNodesIdempotent(n: int)
    requires IsInt(n)
    ensures NormalizeMaxNodes(NormalizeMaxNodes(n)) == NormalizeMaxNodes(n)
    ensures forall m :: 1 <= m <= INT_MAX ==> NormalizeMaxNodes(m) == m
  {
  }

  /** The fields of an SLA built by the default constructor. */
  const DEFAULTS: SlaFields := SlaFields(None, 0, INT_MAX, false, None, None, false, true)

  /** The four-argument constructor; the one- and two-argument ones pass priority 0
      and maxNodes Integer.MAX_VALUE and suspended false. */
  function Constructed(policy: Option<Policy>, priority: int, maxNodes: int, suspended: bool): (f: SlaFields)
    requires IsInt(maxNodes)
    ensures f.policy == policy && f.priority == priority && f.suspended == suspended
    ensures f.maxNodes >= 1 && (maxNodes > 0 ==> f.maxNodes == maxNodes) && (maxNodes <= 0 ==> f.maxNodes == INT_MAX)
    ensures f.jobSchedule == DEFAULTS.jobSchedule && f.expirationSchedule == DEFAULTS.expirationSchedule
    ensures f.broadcast == DEFAULTS.broadcast && f.cancelUponClientDisconnect == DEFAULTS.cancelUponClientDisconnect
  {
    SlaFields(policy, priority, NormalizeMaxNodes(maxNodes), suspended, None, None, false, true)
  }

  /** The convenience constructors agree with the defaults on every field but the
      policy (and the priority when one is given). */
  lemma ConvenienceConstructors(policy: Option<Policy>, priority: int)
    ensures Constructed(policy, 0, INT_MAX, false) == DEFAULTS.(policy := policy)
    ensures Constructed(policy, priority, INT_MAX, false) == DEFAULTS.(policy := policy, priority := priority)
  {
  }

  class Sla {
    var policy: Option<Policy>
    var priority: int
    var maxNodes: int
    var suspended: bool
    var jobSchedule: Option<Schedule>
    var expirationSchedule: Option<Schedule>
    var broadcast: bool
    var cancelUponClientDisconnect: bool

    function Fields(): SlaFields
      reads this
    {
      SlaFields(policy, priority, maxNodes, suspended, jobSchedule, expirationSchedule, broadcast, cancelUponClientDisconnect)
    }

    /** maxNodes is a positive int. */
    predicate Valid()
      reads this
    {
      1 <= maxNodes <= INT_MAX
    }

    /** new JPPFJobSLA() */
    constructor ()
      ensures Fields() == DEFAULTS && Valid()
    {
      policy := None;
      priority := 0;
      maxNodes := INT_MAX;
      suspended := false;
      jobSchedule := None;
      expirationSchedule := None;
      broadcast := false;
      cancelUponClientDisconnect := true;
    }

    /** new JPPFJobSLA(policy, priority, maxNodes, suspended) */
    constructor WithLimits(policy: Option<Policy>, priority: int, maxNodes: int, suspended: bool)
      requires IsInt(maxNodes)
      ensures Fields() == Constructed(policy, priority, maxNodes, suspended) && Valid()
    {
      this.policy := policy;
      this.priority := priority;
      this.maxNodes := NormalizeMaxNodes(maxNodes);
      this.suspended := suspended;
      jobSchedule := None;
      expirationSchedule := None;
      broadcast := false;
      cancelUponClientDisconnect := true;
    }

    method SetPolicy(p: Option<Policy>)
      modifies this
      ensures Fields() == old(Fields()).(policy := p)
    {
      policy := p;
    }

    /** setPriority accepts any int. */
    method SetPriority(p: int)
      modifies this
      ensures Fields() == old(Fields()).(priority := p)
    {
      priority := p;
    }

    method SetMaxNodes(n: int)
      requires IsInt(n)
      modifies this
      ensures Valid()
      ensures Fields() == old(Fields()).(maxNodes := NormalizeMaxNodes(n))
    {
      maxNodes := NormalizeMaxNodes(n);
    }

    method SetSuspended(b: bool)
      modifies this
      ensures Fields() == old(Fields()).(suspended := b)
    {
      suspended := b;
    }

    method SetJobSchedule(s: Option<Schedule>)
      modifies this
      ensures Fields() == old(Fields()).(jobSchedule := s)
    {
      jobSchedule := s;
    }

    method SetExpirationSchedule(s: Option<Schedule>)
      modifies this
      ensures Fields() == old(Fields()).(expirationSchedule := s)
    {
      expirationSchedule := s;
    }

    method SetBroadcast(b: bool)
      modifies this
      ensures Fields() == old(Fields()).(broadcast := b)
    {
      broadcast := b;
    }

    method SetCancelUponClientDisconnect(b: bool)
      modifies this
      ensures Fields() == old(Fields()).(cancelUponClientDisconnect := b)
    {
      cancelUponClientDisconnect := b;
    }

    /** copy: a new SLA built through the setters, equal to this one field by field. */
    method Copy() returns (sla: Sla)
      requires Valid()
      ensures fresh(sla) && sla.Valid()
      ensures sla.Fields() == Fields()
    {
      sla := new Sla();
      sla.SetBroadcast(broadcast);
      sla.SetPolicy(policy);
      sla.SetExpirationSchedule(expirationSchedule);
      sla.SetJobSchedule(jobSchedule);
      NormalizeMaxNodesIdempotent(maxNodes);
      sla.SetMaxNodes(maxNodes);
      sla.SetPriority(priority);
      sla.SetSuspended(suspended);
      sla.SetCancelUponClientDisconnect(cancelUponClientDisconnect);
    }
  }
}
