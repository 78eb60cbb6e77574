/** The driver's registry of nodes reserved for jobs that ask for a specific node
    configuration (NodeReservationHandler). Two maps send a node uuid to a job uuid
    (pending: the node is being restarted with the job's configuration; ready: it came
    back with it), two multimaps send a job uuid to its set of nodes. */
module NodeReservation {
  import opened JavaLang

  type NodeUuid = string
  type JobUuid = string

  /** What the node channel does with its reservation when it is cleaned up. */
  datatype Transition = Remove | Keep | Ready

  /** A `SetHashMap` seen as a map from a key to a non-empty set of values. The
      collection class itself is not part of this model: we take it that a key
      disappears when its last value is removed, as the key-presence tests of
      hasPendingNode/hasReadyNode rely on. */
  type Multimap = map<JobUuid, set<NodeUuid>>

  function ValuesOf(m: Multimap, k: JobUuid): set<NodeUuid> {
    if k in m then m[k] else {}
  }

  function PutValue(m: Multimap, k: JobUuid, v: NodeUuid): (r: Multimap)
    ensures forall j :: ValuesOf(r, j) == if j == k then ValuesOf(m, k) + {v} else ValuesOf(m, j)
    ensures r.Keys == m.Keys + {k}
  {
    m[k := ValuesOf(m, k) + {v}]
  }

  function RemoveValue(m: Multimap, k: JobUuid, v: NodeUuid): (r: Multimap)
    requires forall j :: j in m ==> m[j] != {}
    ensures forall j :: ValuesOf(r, j) == if j == k then ValuesOf(m, k) - {v} else ValuesOf(m, j)
    ensures forall j :: j in r ==> r[j] != {}
    ensures forall j :: j in r <==> ValuesOf(r, j) != {}
  {
    if k !in m then m
    else if m[k] - {v} == {} then m - {k}
    else m[k := m[k] - {v}]
  }

  /** The four maps of the handler. */
  datatype Reservations = Reservations(
    pending: map<NodeUuid, JobUuid>,
    ready: map<NodeUuid, JobUuid>,
    jobPending: Multimap,
    jobReady: Multimap)

  const Empty := Reservations(map[], map[], map[], map[])

  /** A node-to-job map and a job-to-nodes multimap describe the same relation. */
  ghost predicate Inverse(nodeToJob: map<NodeUuid, JobUuid>, jobToNodes: Multimap) {
    && (forall n :: n in nodeToJob ==> n in ValuesOf(jobToNodes, nodeToJob[n]))
    && (forall j, n :: j in jobToNodes && n in jobToNodes[j] ==> n in nodeToJob && nodeToJob[n] == j)
    && (forall j :: j in jobToNodes ==> jobToNodes[j] != {})
  }

  ghost predicate Consistent(r: Reservations) {
    Inverse(r.pending, r.jobPending) && Inverse(r.ready, r.jobReady)
  }

  /** The nodes a node-to-job map sends to `job`. */
  function NodesFor(m: map<NodeUuid, JobUuid>, job: JobUuid): set<NodeUuid> {
    set n | n in m && m[n] == job
  }

  // ---------------------------------------------------------------------------
  // The operations, as functions of the old maps.

  /** doReservation (map part): put node -> job in the pending map and add the node to
      the job's pending set. A previous pending entry of the node is overwritten. */
  function Reserve(r: Reservations, node: NodeUuid, job: JobUuid): Reservations {
    r.(pending := r.pending[node := job], jobPending := PutValue(r.jobPending, job, node))
  }

  /** removeReservation: drop the node from both node maps and from its job's set in
      both multimaps. */
  function RemoveNode(r: Reservations, node: NodeUuid): Reservations
    requires forall j :: j in r.jobPending ==> r.jobPending[j] != {}
    requires forall j :: j in r.jobReady ==> r.jobReady[j] != {}
  {
    var jp := if node in r.pending then RemoveValue(r.jobPending, r.pending[node], node) else r.jobPending;
    var jr := if node in r.ready then RemoveValue(r.jobReady, r.ready[node], node) else r.jobReady;
    Reservations(r.pending - {node}, r.ready - {node}, jp, jr)
  }

  /** onJobCancelled: drop the job's key from both multimaps and every node listed
      under it from the matching node map. */
  function CancelJob(r: Reservations, job: JobUuid): Reservations {
    Reservations(
      r.pending - ValuesOf(r.jobPending, job),
      r.ready - ValuesOf(r.jobReady, job),
      r.jobPending - {job},
      r.jobReady - {job})
  }

  /** The result of transitionReservation: its boolean, or the NullPointerException
      that ConcurrentHashMap.get(null) raises when the node reports a reserved job
      but no previous uuid. */
  datatype Outcome = Returned(b: bool) | NullPointer

  /** transitionReservation: a restarted node reports the job it was reserved for and
      its previous uuid; when the pending map agrees, the reservation moves from pending
      (old uuid) to ready (new uuid) in both pairs of maps. */
  function Promote(r: Reservations, reservedJob: Option<JobUuid>, oldUuid: Option<NodeUuid>, newUuid: NodeUuid): (res: (Outcome, Reservations))
    requires forall j :: j in r.jobPending ==> r.jobPending[j] != {}
    ensures res.0 == Returned(true) <==>
      reservedJob.Some? && oldUuid.Some? && oldUuid.value in r.pending && r.pending[oldUuid.value] == reservedJob.value
    ensures res.0 != Returned(true) ==> res.1 == r
    ensures res.0 == NullPointer <==> reservedJob.Some? && oldUuid.None?
  {
    match reservedJob
    case None => (Returned(false), r)
    case Some(job) =>
      match oldUuid
      case None => (NullPointer, r)
      case Some(prev) =>
        if prev in r.pending && r.pending[prev] == job then
          (Returned(true), Reservations(
            r.pending - {prev},
            r.ready[newUuid := job],
            RemoveValue(r.jobPending, job, prev),
            PutValue(r.jobReady, job, newUuid)))
        else (Returned(false), r)
  }

  // ---------------------------------------------------------------------------
  // The queries.

  function PendingJob(r: Reservations, node: NodeUuid): Option<JobUuid> {
    if node in r.pending then Some(r.pending[node]) else None
  }

  function ReadyJob(r: Reservations, node: NodeUuid): Option<JobUuid> {
    if node in r.ready then Some(r.ready[node]) else None
  }

  predicate HasPendingNode(r: Reservations, job: JobUuid) { job in r.jobPending }

  predicate HasReadyNode(r: Reservations, job: JobUuid) { job in r.jobReady }

  function ReadyNodes(r: Reservations, job: JobUuid): Option<set<NodeUuid>> {
    if job in r.jobReady then Some(r.jobReady[job]) else None
  }

  /** getNbReservedNodes: the sizes of the job's two sets, an absent key counting 0. */
  function NbReservedNodes(r: Reservations, job: JobUuid): nat {
    |ValuesOf(r.jobPending, job)| + |ValuesOf(r.jobReady, job)|
  }

  function ReservedJobs(r: Reservations): set<JobUuid> { r.jobPending.Keys + r.jobReady.Keys }

  function ReservedNodes(r: Reservations): set<NodeUuid> { r.pending.Keys + r.ready.Keys }

  // ---------------------------------------------------------------------------
  // Properties.

  lemma InverseNodesFor(m: map<NodeUuid, JobUuid>, mm: Multimap, job: JobUuid)
    requires Inverse(m, mm)
    ensures ValuesOf(mm, job) == NodesFor(m, job)
  {
    forall n | n in NodesFor(m, job) ensures n in ValuesOf(mm, job) {
      assert n in m && m[n] == job;
    }
  }

  /** The count read off the multimaps is the number of nodes the node maps send to
      the job. */
  lemma NbReservedNodesCountsNodeMaps(r: Reservations, job: JobUuid)
    requires Consistent(r)
    ensures NbReservedNodes(r, job) == |NodesFor(r.pending, job)| + |NodesFor(r.ready, job)|
  {
    InverseNodesFor(r.pending, r.jobPending, job);
    InverseNodesFor(r.ready, r.jobReady, job);
  }

  /** hasPendingNode/hasReadyNode hold exactly when some node map entry names the job. */
  lemma HasNodeIff(r: Reservations, job: JobUuid)
    requires Consistent(r)
    ensures HasPendingNode(r, job) <==> exists n :: n in r.pending && r.pending[n] == job
    ensures HasReadyNode(r, job) <==> exists n :: n in r.ready && r.ready[n] == job
  {
    if HasPendingNode(r, job) {
      var n :| n in r.jobPending[job];
      assert n in r.pending && r.pending[n] == job;
    }
    if HasReadyNode(r, job) {
      var n :| n in r.jobReady[job];
      assert n in r.ready && r.ready[n] == job;
    }
  }

  /** getReservedJobs is the set of jobs some node is reserved for. */
  lemma ReservedJobsAreTargets(r: Reservations)
    requires Consistent(r)
    ensures ReservedJobs(r) == r.pending.Values + r.ready.Values
  {
    forall j | j in ReservedJobs(r) ensures j in r.pending.Values + r.ready.Values {
      if j in r.jobPending {
        var n :| n in r.jobPending[j];
        assert r.pending[n] == j;
      } else {
        var n :| n in r.jobReady[j];
        assert r.ready[n] == j;
      }
    }
  }

  /** getReservedNodes is the set of nodes listed under some job. */
  lemma ReservedNodesAreListed(r: Reservations)
    requires Consistent(r)
    ensures forall n :: n in ReservedNodes(r) <==>
      (exists j :: j in r.jobPending && n in r.jobPending[j]) || (exists j :: j in r.jobReady && n in r.jobReady[j])
  {
    forall n | n in ReservedNodes(r)
      ensures (exists j :: j in r.jobPending && n in r.jobPending[j]) || (exists j :: j in r.jobReady && n in r.jobReady[j])
    {
      if n in r.pending {
        assert n in ValuesOf(r.jobPending, r.pending[n]);
      } else {
        assert n in ValuesOf(r.jobReady, r.ready[n]);
      }
    }
  }

  /** Taking a node out of a node map and out of its job's set keeps the pair
      inverse. */
  lemma InverseRemoveNode(m: map<NodeUuid, JobUuid>, mm: Multimap, node: NodeUuid)
    requires Inverse(m, mm)
    ensures var mm' := if node in m then RemoveValue(mm, m[node], node) else mm;
      Inverse(m - {node}, mm') && forall j :: node !in ValuesOf(mm', j)
  {
    var mm' := if node in m then RemoveValue(mm, m[node], node) else mm;
    forall j ensures node !in ValuesOf(mm', j) {
      if node in ValuesOf(mm, j) { assert m[node] == j; }
    }
    forall n | n in m - {node} ensures n in ValuesOf(mm', (m - {node})[n]) {
      assert n in ValuesOf(mm, m[n]);
    }
    forall j, n | j in mm' && n in mm'[j] ensures n in m - {node} && (m - {node})[n] == j {
      assert n in ValuesOf(mm, j);
    }
  }

  /** Taking a job out of a multimap and its nodes out of the node map keeps the pair
      inverse, and no node is left mapped to the job. */
  lemma InverseDropJob(m: map<NodeUuid, JobUuid>, mm: Multimap, job: JobUuid)
    requires Inverse(m, mm)
    ensures Inverse(m - ValuesOf(mm, job), mm - {job})
    ensures forall n :: n in m - ValuesOf(mm, job) ==> m[n] != job
    ensures forall n :: n in m && m[n] != job ==> n in m - ValuesOf(mm, job)
  {
    forall n | n in m && m[n] != job ensures n !in ValuesOf(mm, job) {}
    forall n | n in m - ValuesOf(mm, job) ensures m[n] != job {
      assert n in ValuesOf(mm, m[n]);
    }
  }

  /** Mapping a node to a job it is not mapped away from, and adding it to the job's
      set, keeps the pair inverse. */
  lemma InversePut(m: map<NodeUuid, JobUuid>, mm: Multimap, node: NodeUuid, job: JobUuid)
    requires Inverse(m, mm)
    requires node in m ==> m[node] == job
    ensures Inverse(m[node := job], PutValue(mm, job, node))
  {
    var m', mm' := m[node := job], PutValue(mm, job, node);
    forall n | n in m' ensures n in ValuesOf(mm', m'[n]) {
      if n != node { assert n in ValuesOf(mm, m[n]); }
    }
  }

  /** doReservation keeps the maps inverse to each other when the node is not already
      pending for another job. */
  lemma ReservePreservesConsistency(r: Reservations, node: NodeUuid, job: JobUuid)
    requires Consistent(r)
    requires node in r.pending ==> r.pending[node] == job
    ensures Consistent(Reserve(r, node, job))
    ensures PendingJob(Reserve(r, node, job), node) == Some(job)
    ensures node in ValuesOf(Reserve(r, node, job).jobPending, job)
  {
    InversePut(r.pending, r.jobPending, node, job);
  }

  /** ... and breaks it when the node was pending for another job: `put` overwrites the
      node's entry but the previous job's set still lists it. */
  lemma ReserveOverAnotherJobBreaksConsistency(r: Reservations, node: NodeUuid, job: JobUuid)
    requires Consistent(r)
    requires node in r.pending && r.pending[node] != job
    ensures !Consistent(Reserve(r, node, job))
  {
    var prevJob := r.pending[node];
    var r' := Reserve(r, node, job);
    assert node in ValuesOf(r.jobPending, prevJob);
    assert prevJob in r'.jobPending && node in r'.jobPending[prevJob];
    assert r'.pending[node] != prevJob;
  }

  /** removeReservation leaves the node with no reservation at all and keeps the maps
      consistent ... */
  lemma RemoveNodeClears(r: Reservations, node: NodeUuid)
    requires Consistent(r)
    ensures Consistent(RemoveNode(r, node))
    ensures node !in ReservedNodes(RemoveNode(r, node))
    ensures forall j :: node !in ValuesOf(RemoveNode(r, node).jobPending, j) && node !in ValuesOf(RemoveNode(r, node).jobReady, j)
  {
    var r' := RemoveNode(r, node);
    InverseRemoveNode(r.pending, r.jobPending, node);
    assert r'.jobPending == if node in r.pending then RemoveValue(r.jobPending, r.pending[node], node) else r.jobPending;
    InverseRemoveNode(r.ready, r.jobReady, node);
    assert r'.jobReady == if node in r.ready then RemoveValue(r.jobReady, r.ready[node], node) else r.jobReady;
  }

  /** ... and changes no other node's reservation. */
  lemma RemoveNodeKeepsOthers(r: Reservations, node: NodeUuid, n: NodeUuid)
    requires Consistent(r) && n != node
    ensures PendingJob(RemoveNode(r, node), n) == PendingJob(r, n)
    ensures ReadyJob(RemoveNode(r, node), n) == ReadyJob(r, n)
  {
  }

  /** onJobCancelled leaves no node reserved for the job, keeps the maps consistent,
      and changes no other job's reservations. */
  lemma CancelJobClears(r: Reservations, job: JobUuid)
    requires Consistent(r)
    ensures Consistent(CancelJob(r, job))
    ensures job !in ReservedJobs(CancelJob(r, job))
    ensures NbReservedNodes(CancelJob(r, job), job) == 0
    ensures job !in CancelJob(r, job).pending.Values + CancelJob(r, job).ready.Values
    ensures forall n :: PendingJob(r, n) != Some(job) ==> PendingJob(CancelJob(r, job), n) == PendingJob(r, n)
    ensures forall n :: ReadyJob(r, n) != Some(job) ==> ReadyJob(CancelJob(r, job), n) == ReadyJob(r, n)
  {
    InverseDropJob(r.pending, r.jobPending, job);
    InverseDropJob(r.ready, r.jobReady, job);
    ReservedJobsAreTargets(CancelJob(r, job));
  }

  /** A successful transition keeps the maps consistent when the new uuid is not ready
      for another job, and moves the reservation from the old uuid to the new one. */
  lemma PromoteMovesReservation(r: Reservations, job: JobUuid, prev: NodeUuid, newUuid: NodeUuid)
    requires Consistent(r)
    requires prev in r.pending && r.pending[prev] == job
    requires newUuid in r.ready ==> r.ready[newUuid] == job
    ensures Promote(r, Some(job), Some(prev), newUuid).0 == Returned(true)
    ensures Consistent(Promote(r, Some(job), Some(prev), newUuid).1)
    ensures PendingJob(Promote(r, Some(job), Some(prev), newUuid).1, prev) == None
    ensures ReadyJob(Promote(r, Some(job), Some(prev), newUuid).1, newUuid) == Some(job)
    ensures newUuid in ValuesOf(Promote(r, Some(job), Some(prev), newUuid).1.jobReady, job)
    ensures prev !in ValuesOf(Promote(r, Some(job), Some(prev), newUuid).1.jobPending, job)
  {
    InverseRemoveNode(r.pending, r.jobPending, prev);
    InversePut(r.ready, r.jobReady, newUuid, job);
  }

  // ---------------------------------------------------------------------------
  // The handler object.

  /** A node channel, as far as reservations are concerned: its uuid, the transition
      it will apply on cleanup, and the two reservation properties of its
      configuration (reserved job and previous uuid). */
  class NodeContext {
    const uuid: NodeUuid
    var reservationTransition: Transition
    var reservedJob: Option<JobUuid>
    var reservedUuid: Option<NodeUuid>

    constructor (uuid: NodeUuid, transition: Transition, reservedJob: Option<JobUuid>, reservedUuid: Option<NodeUuid>)
      ensures this.uuid == uuid && reservationTransition == transition
      ensures this.reservedJob == reservedJob && this.reservedUuid == reservedUuid
    {
      this.uuid := uuid;
      reservationTransition := transition;
      this.reservedJob := reservedJob;
      this.reservedUuid := reservedUuid;
    }
  }

  class NodeReservationHandler {
    var pendingMap: map<NodeUuid, JobUuid>
    var readyMap: map<NodeUuid, JobUuid>
    var jobPendingMap: Multimap
    var jobReadyMap: Multimap

    function State(): Reservations
      reads this
    {
      Reservations(pendingMap, readyMap, jobPendingMap, jobReadyMap)
    }

    /** No empty set is ever stored in a multimap. */
    ghost predicate Valid()
      reads this
    {
      (forall j :: j in jobPendingMap ==> jobPendingMap[j] != {}) &&
      (forall j :: j in jobReadyMap ==> jobReadyMap[j] != {})
    }

    constructor ()
      ensures Valid() && State() == Empty
    {
      pendingMap, readyMap, jobPendingMap, jobReadyMap := map[], map[], map[], map[];
    }

    /** doReservation, without the node restart task it then submits. */
    method DoReservation(job: JobUuid, node: NodeContext)
      requires Valid()
      modifies this
      ensures Valid() && State() == Reserve(old(State()), node.uuid, job)
    {
      pendingMap := pendingMap[node.uuid := job];
      jobPendingMap := PutValue(jobPendingMap, job, node.uuid);
    }

    method RemoveReservation(node: NodeContext)
      requires Valid()
      modifies this, node
      ensures Valid() && State() == RemoveNode(old(State()), node.uuid)
      ensures node.reservationTransition == Remove
      ensures node.reservedJob == old(node.reservedJob) && node.reservedUuid == old(node.reservedUuid)
    {
      if node.uuid in pendingMap {
        var job := pendingMap[node.uuid];
        pendingMap := pendingMap - {node.uuid};
        jobPendingMap := RemoveValue(jobPendingMap, job, node.uuid);
      }
      if node.uuid in readyMap {
        var job := readyMap[node.uuid];
        readyMap := readyMap - {node.uuid};
        jobReadyMap := RemoveValue(jobReadyMap, job, node.uuid);
      }
      node.reservationTransition := Remove;
    }

    /** The first half of onJobCancelled: the job's pending nodes. */
    method CancelPending(job: JobUuid)
      modifies this
      ensures pendingMap == old(pendingMap) - ValuesOf(old(jobPendingMap), job)
      ensures jobPendingMap == old(jobPendingMap) - {job}
      ensures readyMap == old(readyMap) && jobReadyMap == old(jobReadyMap)
    {
      var nodes := ValuesOf(jobPendingMap, job);
      jobPendingMap := jobPendingMap - {job};
      var rest := nodes;
      while rest != {}
        invariant rest <= nodes
        invariant pendingMap == old(pendingMap) - (nodes - rest)
        invariant readyMap == old(readyMap) && jobReadyMap == old(jobReadyMap)
        invariant jobPendingMap == old(jobPendingMap) - {job}
        decreases rest
      {
        var n :| n in rest;
        pendingMap := pendingMap - {n};
        rest := rest - {n};
      }
    }

    /** The second half of onJobCancelled: the job's ready nodes. */
    method CancelReady(job: JobUuid)
      modifies this
      ensures readyMap == old(readyMap) - ValuesOf(old(jobReadyMap), job)
      ensures jobReadyMap == old(jobReadyMap) - {job}
      ensures pendingMap == old(pendingMap) && jobPendingMap == old(jobPendingMap)
    {
      var nodes := ValuesOf(jobReadyMap, job);
      jobReadyMap := jobReadyMap - {job};
      var rest := nodes;
      while rest != {}
        invariant rest <= nodes
        invariant readyMap == old(readyMap) - (nodes - rest)
        invariant pendingMap == old(pendingMap) && jobPendingMap == old(jobPendingMap)
        invariant jobReadyMap == old(jobReadyMap) - {job}
        decreases rest
      {
        var n :| n in rest;
        readyMap := readyMap - {n};
        rest := rest - {n};
      }
    }

    method OnJobCancelled(job: JobUuid)
      requires Valid()
      modifies this
      ensures Valid() && State() == CancelJob(old(State()), job)
    {
      CancelPending(job);
      CancelReady(job);
    }

    method TransitionReservation(node: NodeContext) returns (outcome: Outcome)
      requires Valid()
      modifies this, node
      ensures Valid()
      ensures (outcome, State()) == Promote(old(State()), node.reservedJob, node.reservedUuid, node.uuid)
      ensures node.reservationTransition == if outcome == Returned(true) then Remove else old(node.reservationTransition)
      ensures node.reservedJob == old(node.reservedJob) && node.reservedUuid == old(node.reservedUuid)
    {
      if node.reservedJob.None? {
        return Returned(false);
      }
      if node.reservedUuid.None? {
        return NullPointer;
      }
      var reserved, prev := node.reservedJob.value, node.reservedUuid.value;
      if prev in pendingMap && pendingMap[prev] == reserved {
        pendingMap := pendingMap - {prev};
        readyMap := readyMap[node.uuid := reserved];
        jobPendingMap := RemoveValue(jobPendingMap, reserved, prev);
        jobReadyMap := PutValue(jobReadyMap, reserved, node.uuid);
        node.reservationTransition := Remove;
        return Returned(true);
      }
      return Returned(false);
    }
  }
}
