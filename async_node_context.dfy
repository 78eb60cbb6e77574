/** The driver-side state of one node channel (AsyncNodeContext): the table of bundles
    in flight on the node, the job-to-bundle-ids multimap, the queue of messages to
    send, the closed flag and the execution status, together with the layout of the
    messages exchanged with the node and the resubmission of a bundle whose node
    failed. */
module AsyncNode {
  import opened JavaLang
  import opened ServerBundle

  /** The execution status of a node channel. */
  datatype ExecutorStatus = Active | Executing | Failed | Disabled

  // ---------------------------------------------------------------------------
  // The in-flight entry table.

  /** The key of an entry: the Java string concatenation `uuid + bundleId`. */
  function EntryKey(uuid: string, bundleId: int): string {
    uuid + DecimalString(bundleId)
  }

  /** Two distinct (uuid, bundle id) pairs can share one entry slot. */
  lemma EntryKeysCollide()
    ensures ("a1", 2) != ("a", 12)
    ensures EntryKey("a1", 2) == EntryKey("a", 12)
  {
    assert DecimalString(2) == "2";
    assert Digits(12) == Digits(1) + [DigitChar(2)];
    assert DecimalString(12) == "12";
  }

  /** Job uuids of one fixed length (as generated uuids are) never collide. */
  lemma EntryKeyInjectiveOnEqualLengthUuids(u1: string, id1: int, u2: string, id2: int)
    requires |u1| == |u2|
    requires EntryKey(u1, id1) == EntryKey(u2, id2)
    ensures u1 == u2 && id1 == id2
  {
    var k := EntryKey(u1, id1);
    assert u1 == k[..|u1|] && u2 == k[..|u2|];
    assert DecimalString(id1) == k[|u1|..] && DecimalString(id2) == k[|u2|..];
    DecimalStringInjective(id1, id2);
  }

  /** `putValue` on the job-to-bundle-ids multimap (a list per key). */
  function AddId(m: map<string, seq<int>>, uuid: string, id: int): (r: map<string, seq<int>>)
    ensures uuid in r && id in r[uuid]
  {
    m[uuid := (if uuid in m then m[uuid] else []) + [id]]
  }

  /** `removeValue` on the multimap; as for every CollectionMap in this model, a key
      disappears with its last value. */
  function RemoveId(m: map<string, seq<int>>, uuid: string, id: int): map<string, seq<int>> {
    if uuid !in m then m
    else
      var rest := RemoveFirst(m[uuid], id);
      if rest == [] then m - {uuid} else m[uuid := rest]
  }

  /** Removing an id just added for a job that did not list it gives back the very
      same multimap. */
  lemma RemoveIdUndoesAddId(m: map<string, seq<int>>, uuid: string, id: int)
    requires uuid in m ==> m[uuid] != [] && id !in m[uuid]
    ensures RemoveId(AddId(m, uuid, id), uuid, id) == m
  {
    if uuid in m {
      RemoveIdUndoesAddIdKnownJob(m, uuid, id);
    } else {
      RemoveIdUndoesAddIdNewJob(m, uuid, id);
    }
  }

  lemma RemoveIdUndoesAddIdKnownJob(m: map<string, seq<int>>, uuid: string, id: int)
    requires uuid in m && m[uuid] != [] && id !in m[uuid]
    ensures RemoveId(AddId(m, uuid, id), uuid, id) == m
  {
    var s := m[uuid];
    var a := AddId(m, uuid, id);
    assert a[uuid] == s + [id];
    RemoveFirstLast(s, id);
    assert RemoveFirst(a[uuid], id) == s;
    assert RemoveId(a, uuid, id) == a[uuid := s];
    assert a[uuid := s] == m;
  }

  lemma RemoveIdUndoesAddIdNewJob(m: map<string, seq<int>>, uuid: string, id: int)
    requires uuid !in m
    ensures RemoveId(AddId(m, uuid, id), uuid, id) == m
  {
    var a := AddId(m, uuid, id);
    assert a[uuid] == [id];
    assert RemoveFirst([id], id) == [];
    assert RemoveId(a, uuid, id) == a - {uuid};
    assert a - {uuid} == m;
  }

  /** When the job already listed the id, the earlier occurrence goes and the new one
      stays: the job's ids are the same as a multiset, in a new order. */
  lemma RemoveIdAfterRepeatedAddId(m: map<string, seq<int>>, uuid: string, id: int)
    requires uuid in m && id in m[uuid]
    ensures RemoveId(AddId(m, uuid, id), uuid, id) == m[uuid := RemoveFirst(m[uuid], id) + [id]]
    ensures multiset(RemoveFirst(m[uuid], id) + [id]) == multiset(m[uuid])
  {
    var s := m[uuid];
    var a := AddId(m, uuid, id);
    assert a[uuid] == s + [id];
    RemoveFirstAppend(s, id, id);
    RemoveFirstMultiset(s, id);
    assert RemoveFirst(a[uuid], id) == RemoveFirst(s, id) + [id];
  }

  // ---------------------------------------------------------------------------
  // Message layout.

  /** A message exchanged with a node: its data locations and the header it carries
      in memory (`null` once it has crossed the wire). */
  datatype Message = Message(locations: seq<Location>, bundle: Option<JobHeader>)

  /** The header as serializeBundle prepares it: the bundle id is set; for a non-handshake
      job TASK_MAX_RESUBMITS is removed when the channel is not a peer driver, and
      ALREADY_PERSISTED_P2P is set when it is a peer and the job is persistent. */
  function PrepareHeader(h: JobHeader, bundleId: int, peer: bool, persistent: bool): (r: JobHeader)
    ensures r.bundleId == bundleId && r.uuid == h.uuid && r.handshake == h.handshake
    ensures !h.handshake && !peer ==> r.maxResubmitsParam == None
    ensures !h.handshake && peer && persistent ==> r.alreadyPersistedP2P
    ensures h.handshake ==> r == h.(bundleId := bundleId)
    ensures !h.handshake && peer ==> r.maxResubmitsParam == h.maxResubmitsParam
    ensures !(!h.handshake && peer && persistent) ==> r.alreadyPersistedP2P == h.alreadyPersistedP2P
    ensures r.(maxResubmitsParam := h.maxResubmitsParam, alreadyPersistedP2P := h.alreadyPersistedP2P) == h.(bundleId := bundleId)
  {
    var h1 := h.(bundleId := bundleId);
    if h1.handshake then h1
    else if !peer then h1.(maxResubmitsParam := None)
    else if persistent then h1.(alreadyPersistedP2P := true)
    else h1
  }

  /** The locations serializeBundle lays out: the header, the data provider, then the
      tasks in order. */
  function Layout(h: JobHeader, dataProvider: Location, tasks: seq<ServerTask>): Message {
    Message([HeaderData(h), dataProvider] + InitialTasks(tasks), Some(h))
  }

  /** What deserializeBundle returns: the header and the task locations. */
  datatype Received = Received(header: JobHeader, tasks: seq<Location>)

  /** Why deserializeBundle throws: no location to read the header from, or a first
      location that does not hold a header (ClassCastException). */
  datatype DecodeError = NoLocation | NotAHeader

  datatype Decoded = Decoded(r: Received) | DecodeFailed(e: DecodeError)

  /** deserializeBundle: the in-memory header if there is one, else the header
      unwrapped from location 0; every later location is a task. */
  function Deserialize(m: Message): (d: Decoded)
    ensures d.Decoded? && |m.locations| >= 1 ==> d.r.tasks == m.locations[1..]
    ensures d.Decoded? && |m.locations| == 0 ==> d.r.tasks == []
    ensures d.DecodeFailed? <==> m.bundle.None? && (|m.locations| == 0 || !m.locations[0].HeaderData?)
    ensures d.Decoded? ==> d.r.header == (if m.bundle.Some? then m.bundle.value else m.locations[0].header)
  {
    var tasks := if |m.locations| > 1 then m.locations[1..] else [];
    match m.bundle
    case Some(h) => Decoded(Received(h, tasks))
    case None =>
      if |m.locations| == 0 then DecodeFailed(NoLocation)
      else if !m.locations[0].HeaderData? then DecodeFailed(NotAHeader)
      else Decoded(Received(m.locations[0].header, tasks))
  }

  /** Reading back a laid-out message, with or without its in-memory header, gives the
      header and, as tasks, the data provider followed by the tasks: the reader is the
      one that knows the first of them is the data provider. */
  lemma LayoutRoundTrip(h: JobHeader, dataProvider: Location, tasks: seq<ServerTask>)
    ensures Deserialize(Layout(h, dataProvider, tasks)) == Decoded(Received(h, [dataProvider] + InitialTasks(tasks)))
    ensures Deserialize(Layout(h, dataProvider, tasks).(bundle := None)) == Decoded(Received(h, [dataProvider] + InitialTasks(tasks)))
    ensures |Layout(h, dataProvider, tasks).locations| == |tasks| + 2
  {
    var locs := Layout(h, dataProvider, tasks).locations;
    assert locs[1..] == [dataProvider] + InitialTasks(tasks);
  }

  /** Preparing a header twice for the same bundle changes nothing more. */
  lemma PrepareHeaderIdempotent(h: JobHeader, bundleId: int, peer: bool, persistent: bool)
    ensures PrepareHeader(PrepareHeader(h, bundleId, peer, persistent), bundleId, peer, persistent)
         == PrepareHeader(h, bundleId, peer, persistent)
  {
  }

  // ---------------------------------------------------------------------------
  // Resubmission on node failure.

  /** The positions of the tasks the max-resubmit policy resubmits: those whose resubmit
      count, once incremented (as a Java int), is still within the SLA maximum. */
  function ResubmitEvents(tasks: seq<ServerTask>, max: int): (r: seq<BundleEvent>)
    ensures |r| <= |tasks|
    ensures forall e :: e in r ==> e.TaskResubmitted? && e.position < |tasks|
    decreases |tasks|
  {
    if |tasks| == 0 then []
    else
      var n := |tasks| - 1;
      ResubmitEvents(tasks[..n], max) + (if WrapInt(tasks[n].resubmitCount + 1) <= max then [TaskResubmitted(n)] else [])
  }

  /** Every task has its resubmit count incremented. */
  function Bumped(tasks: seq<ServerTask>): (r: seq<ServerTask>)
    ensures |r| == |tasks|
    ensures forall i :: 0 <= i < |tasks| ==> r[i].initialTask == tasks[i].initialTask
  {
    seq(|tasks|, i requires 0 <= i < |tasks| => tasks[i].(resubmitCount := WrapInt(tasks[i].resubmitCount + 1)))
  }

  /** The calls handleException(exception, bundle) makes on a non-null bundle. */
  function NodeErrorEvents(exception: Option<Throwable>, handshake: bool, applyMaxResubmit: bool,
                           tasks: seq<ServerTask>, max: int): seq<BundleEvent>
  {
    [ExpirationCancelled, ReturnReasonNodeChannelError, TaskCompleted(exception)] +
    (if handshake then []
     else if !applyMaxResubmit then [Resubmitted, ClientJobTaskCompleted(exception)]
     else ResubmitEvents(tasks, max) + [ResultsReceived(InitialTasks(tasks))])
  }

  /** The bundle is always completed with the exception first; a handshake job stops
      there; otherwise the client job is notified and the bundle resubmitted as a whole
      exactly when the max-resubmit policy is off, and the initial tasks are returned
      as results exactly when it is on. */
  lemma NodeErrorEventsSpec(exception: Option<Throwable>, handshake: bool, applyMaxResubmit: bool,
                            tasks: seq<ServerTask>, max: int)
    ensures var ev := NodeErrorEvents(exception, handshake, applyMaxResubmit, tasks, max);
      && |ev| >= 3 && ev[..3] == [ExpirationCancelled, ReturnReasonNodeChannelError, TaskCompleted(exception)]
      && (handshake ==> |ev| == 3)
      && (ClientJobTaskCompleted(exception) in ev <==> !handshake && !applyMaxResubmit)
      && (Resubmitted in ev <==> !handshake && !applyMaxResubmit)
      && (ResultsReceived(InitialTasks(tasks)) in ev <==> !handshake && applyMaxResubmit)
  {
    var head := [ExpirationCancelled, ReturnReasonNodeChannelError, TaskCompleted(exception)];
    if !handshake && applyMaxResubmit {
      var re := ResubmitEvents(tasks, max);
      assert ClientJobTaskCompleted(exception) !in re;
      assert Resubmitted !in re;
    } else if !handshake {
      assert ResultsReceived(InitialTasks(tasks)) !in head + [Resubmitted, ClientJobTaskCompleted(exception)];
    }
  }

  /** The tasks are resubmitted in task order, each at most once. */
  lemma {:induction false} ResubmitEventsOrdered(tasks: seq<ServerTask>, max: int)
    ensures forall a, b :: 0 <= a < b < |ResubmitEvents(tasks, max)| ==>
      ResubmitEvents(tasks, max)[a].position < ResubmitEvents(tasks, max)[b].position
    decreases |tasks|
  {
    if |tasks| > 0 {
      var n := |tasks| - 1;
      ResubmitEventsOrdered(tasks[..n], max);
      var prefix := ResubmitEvents(tasks[..n], max);
      forall a | 0 <= a < |prefix| ensures prefix[a].position < n {
        assert prefix[a] in prefix;
      }
    }
  }

  /** A task is resubmitted exactly when its incremented count is within the maximum. */
  lemma {:induction false} ResubmitEventsExact(tasks: seq<ServerTask>, max: int)
    ensures forall i :: 0 <= i < |tasks| ==>
      (TaskResubmitted(i) in ResubmitEvents(tasks, max) <==> WrapInt(tasks[i].resubmitCount + 1) <= max)
    decreases |tasks|
  {
    if |tasks| > 0 {
      var n := |tasks| - 1;
      ResubmitEventsExact(tasks[..n], max);
      forall i | 0 <= i < n ensures tasks[..n][i] == tasks[i] { }
    }
  }

  /** The number of node failures, out of `k` in a row, after which a task that starts
      with resubmit count `c` is resubmitted. */
  function GrantedResubmits(c: int, max: int, k: nat): nat
    decreases k
  {
    if k == 0 then 0
    else (if WrapInt(c + 1) <= max then 1 else 0) + GrantedResubmits(WrapInt(c + 1), max, k - 1)
  }

  /** The resubmit budget: over `k` node failures a task is resubmitted
      min(k, max - c) times, and never once its count has reached the maximum (as long
      as the count does not overflow). */
  lemma {:induction false} GrantedResubmitsBudget(c: int, max: int, k: nat)
    requires 0 <= c && c + k <= INT_MAX
    ensures GrantedResubmits(c, max, k) == if max <= c then 0 else if k <= max - c then k else max - c
    decreases k
  {
    if k > 0 {
      assert WrapInt(c + 1) == c + 1;
      GrantedResubmitsBudget(c + 1, max, k - 1);
    }
  }

  /** The per-task loop of handleException under the max-resubmit policy: every task's
      resubmit count is incremented, the tasks still within `max` are resubmitted, and
      every initial task is collected as a result. */
  method ResubmitPass(tasks: seq<ServerTask>, max: int) returns (bumped: seq<ServerTask>, resubmits: seq<BundleEvent>, results: seq<Location>)
    ensures bumped == Bumped(tasks)
    ensures resubmits == ResubmitEvents(tasks, max)
    ensures results == InitialTasks(tasks)
  {
    bumped, resubmits, results := [], [], [];
    var i := 0;
    while i < |tasks|
      invariant 0 <= i <= |tasks|
      invariant bumped == Bumped(tasks[..i])
      invariant results == InitialTasks(tasks[..i])
      invariant resubmits == ResubmitEvents(tasks[..i], max)
    {
      var task := tasks[i];
      results := results + [task.initialTask];
      var count := WrapInt(task.resubmitCount + 1);
      bumped := bumped + [task.(resubmitCount := count)];
      if count <= max {
        resubmits := resubmits + [TaskResubmitted(i)];
      }
      assert tasks[..i + 1][..i] == tasks[..i];
      i := i + 1;
    }
    assert tasks[..i] == tasks;
  }

  // ---------------------------------------------------------------------------
  // The channel.

  class AsyncNodeContext {
    var jobToBundlesIds: map<string, seq<int>>
    var entryMap: map<string, NodeBundle>
    var sendQueue: seq<Message>
    var closed: bool
    var status: ExecutorStatus
    var maxJobs: int
    const peer: bool
    const offline: bool

    /** No empty list is stored in the multimap. */
    ghost predicate Valid()
      reads this
    {
      forall u :: u in jobToBundlesIds ==> jobToBundlesIds[u] != []
    }

    constructor (peer: bool, offline: bool)
      ensures Valid()
      ensures jobToBundlesIds == map[] && entryMap == map[] && sendQueue == []
      ensures !closed && status == Active && maxJobs == 0
      ensures this.peer == peer && this.offline == offline
    {
      jobToBundlesIds := map[];
      entryMap := map[];
      sendQueue := [];
      closed := false;
      status := Active;
      maxJobs := 0;
      this.peer := peer;
      this.offline := offline;
    }

    /** getJobEntry: the bundle stored under uuid + bundleId, if any. */
    function GetJobEntry(uuid: string, bundleId: int): Option<NodeBundle>
      reads this
    {
      var key := EntryKey(uuid, bundleId);
      if key in entryMap then Some(entryMap[key]) else None
    }

    /** getCurrentNbJobs: the number of entries (not of listed bundle ids). */
    function CurrentNbJobs(): nat
      reads this
    {
      |entryMap|
    }

    method AddJobEntry(bundle: NodeBundle)
      requires Valid()
      modifies this
      ensures Valid()
      ensures jobToBundlesIds == AddId(old(jobToBundlesIds), bundle.job.uuid, bundle.id)
      ensures entryMap == old(entryMap)[EntryKey(bundle.job.uuid, bundle.id) := bundle]
      ensures GetJobEntry(bundle.job.uuid, bundle.id) == Some(bundle)
      ensures bundle.id in jobToBundlesIds[bundle.job.uuid]
      ensures sendQueue == old(sendQueue) && closed == old(closed) && status == old(status) && maxJobs == old(maxJobs)
    {
      var uuid := bundle.job.uuid;
      jobToBundlesIds := AddId(jobToBundlesIds, uuid, bundle.id);
      entryMap := entryMap[EntryKey(uuid, bundle.id) := bundle];
    }

    method RemoveJobEntry(uuid: string, bundleId: int) returns (removed: Option<NodeBundle>)
      requires Valid()
      modifies this
      ensures Valid()
      ensures removed == old(GetJobEntry(uuid, bundleId))
      ensures GetJobEntry(uuid, bundleId) == None
      ensures entryMap == old(entryMap) - {EntryKey(uuid, bundleId)}
      ensures jobToBundlesIds == RemoveId(old(jobToBundlesIds), uuid, bundleId)
      ensures sendQueue == old(sendQueue) && closed == old(closed) && status == old(status) && maxJobs == old(maxJobs)
    {
      jobToBundlesIds := RemoveId(jobToBundlesIds, uuid, bundleId);
      var key := EntryKey(uuid, bundleId);
      removed := if key in entryMap then Some(entryMap[key]) else None;
      entryMap := entryMap - {key};
    }

    /** offerMessageToSend; the write-interest update of a remote channel is not part of
        this model. */
    method OfferMessageToSend(message: Message)
      modifies this
      ensures sendQueue == old(sendQueue) + [message]
      ensures jobToBundlesIds == old(jobToBundlesIds) && entryMap == old(entryMap)
      ensures closed == old(closed) && status == old(status) && maxJobs == old(maxJobs)
    {
      sendQueue := sendQueue + [message];
    }

    /** nextMessageToSend: the oldest queued message, or null. */
    method NextMessageToSend() returns (message: Option<Message>)
      modifies this
      ensures old(sendQueue) == [] ==> message == None && sendQueue == []
      ensures old(sendQueue) != [] ==> message == Some(old(sendQueue)[0]) && sendQueue == old(sendQueue)[1..]
      ensures jobToBundlesIds == old(jobToBundlesIds) && entryMap == old(entryMap)
      ensures closed == old(closed) && status == old(status) && maxJobs == old(maxJobs)
    {
      if sendQueue == [] {
        message := None;
      } else {
        message := Some(sendQueue[0]);
        sendQueue := sendQueue[1..];
      }
    }

    /** close: only the first call acts (compareAndSet on the closed flag). The JMX
        connection shutdown and the node-count statistic are not part of this model. */
    method Close()
      modifies this
      ensures closed
      ensures old(closed) ==> (jobToBundlesIds == old(jobToBundlesIds) && entryMap == old(entryMap)
        && sendQueue == old(sendQueue) && status == old(status))
      ensures !old(closed) ==> jobToBundlesIds == map[] && entryMap == map[] && sendQueue == [] && status == Failed
      ensures maxJobs == old(maxJobs)
    {
      if !closed {
        closed := true;
        jobToBundlesIds := map[];
        entryMap := map[];
        sendQueue := [];
        status := Failed;
      }
    }

    method SetMaxJobs(n: int)
      modifies this
      ensures maxJobs == n
      ensures jobToBundlesIds == old(jobToBundlesIds) && entryMap == old(entryMap)
      ensures sendQueue == old(sendQueue) && closed == old(closed) && status == old(status)
    {
      maxJobs := n;
    }

    /** serializeBundle: prepares the bundle's header in place and lays out the message. */
    method SerializeBundle(bundle: NodeBundle) returns (message: Message)
      modifies bundle
      ensures bundle.job == PrepareHeader(old(bundle.job), bundle.id, peer, bundle.persistent)
      ensures message == Layout(bundle.job, bundle.dataProvider, bundle.tasks)
      ensures bundle.tasks == old(bundle.tasks) && bundle.events == old(bundle.events) && bundle.offline == old(bundle.offline)
    {
      bundle.job := PrepareHeader(bundle.job, bundle.id, peer, bundle.persistent);
      var locations := [HeaderData(bundle.job), bundle.dataProvider];
      var i := 0;
      while i < |bundle.tasks|
        invariant 0 <= i <= |bundle.tasks|
        invariant locations == [HeaderData(bundle.job), bundle.dataProvider] + InitialTasks(bundle.tasks[..i])
      {
        assert InitialTasks(bundle.tasks[..i + 1]) == InitialTasks(bundle.tasks[..i]) + [bundle.tasks[i].initialTask];
        locations := locations + [bundle.tasks[i].initialTask];
        i := i + 1;
      }
      assert bundle.tasks[..i] == bundle.tasks;
      message := Message(locations, Some(bundle.job));
    }

    /** submit: register the bundle, switch to EXECUTING once the number of entries
        reaches maxJobs, then serialize the bundle and queue the message. The execution
        start time and the returned future are not part of this model. */
    method Submit(bundle: NodeBundle)
      requires Valid()
      modifies this, bundle
      ensures Valid()
      ensures jobToBundlesIds == AddId(old(jobToBundlesIds), old(bundle.job.uuid), bundle.id)
      ensures entryMap == old(entryMap)[EntryKey(old(bundle.job.uuid), bundle.id) := bundle]
      ensures status == if |entryMap| >= maxJobs then Executing else old(status)
      ensures bundle.offline == offline
      ensures bundle.job == PrepareHeader(old(bundle.job), bundle.id, peer, bundle.persistent)
      ensures sendQueue == old(sendQueue) + [Layout(bundle.job, bundle.dataProvider, old(bundle.tasks))]
      ensures bundle.tasks == old(bundle.tasks) && bundle.events == old(bundle.events)
      ensures closed == old(closed) && maxJobs == old(maxJobs)
    {
      AddJobEntry(bundle);
      if CurrentNbJobs() >= maxJobs {
        status := Executing;
      }
      bundle.offline := offline;
      var message := SerializeBundle(bundle);
      OfferMessageToSend(message);
    }

    /** handleException(exception, bundle): the bundle's dispatch expiration is cancelled,
        it is completed with the exception, and unless it belongs to a handshake job it
        is resubmitted: as a whole, or, under the max-resubmit policy (job metadata or
        SLA flag), task by task within the SLA's maximum, all initial tasks then being
        returned as results and the client job not notified. Statistics updates are not
        part of this model. */
    method HandleBundleException(exception: Option<Throwable>, bundle: NodeBundle?)
      modifies bundle
      ensures bundle != null ==>
        var apply := bundle.applyMaxResubmitMetadata || bundle.slaApplyMaxResubmits;
        && bundle.events == old(bundle.events) +
             NodeErrorEvents(exception, bundle.job.handshake, apply, old(bundle.tasks), bundle.slaMaxTaskResubmits)
        && bundle.tasks == (if !bundle.job.handshake && apply then Bumped(old(bundle.tasks)) else old(bundle.tasks))
        && bundle.job == old(bundle.job) && bundle.offline == old(bundle.offline)
    {
      if bundle == null {
        return;
      }
      bundle.events := bundle.events + [ExpirationCancelled, ReturnReasonNodeChannelError, TaskCompleted(exception)];
      if bundle.job.handshake {
        return;
      }
      var apply := bundle.applyMaxResubmitMetadata;
      apply := apply || bundle.slaApplyMaxResubmits;
      if !apply {
        bundle.events := bundle.events + [Resubmitted, ClientJobTaskCompleted(exception)];
        return;
      }
      var bumped, resubmits, results := ResubmitPass(bundle.tasks, bundle.slaMaxTaskResubmits);
      bundle.tasks := bumped;
      bundle.events := bundle.events + resubmits + [ResultsReceived(results)];
    }
  }
}
