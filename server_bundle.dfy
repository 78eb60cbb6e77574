/** The server-side collaborators the node channel code works with, reduced to what
    that code reads and records: the job header sent to and received from a node
    (TaskBundle / JPPFTaskBundle), the opaque serialized data locations, the tasks of a
    dispatched bundle, and the dispatched bundle itself (ServerTaskBundleNode), whose
    own logic is not part of this model: every call made on it is appended to a log. */
module ServerBundle {
  import opened JavaLang

  /** A Throwable: an Exception, an Error, or a JPPFException wrapping another. */
  datatype Throwable = Exception(message: string) | Error(message: string) | JPPFException(cause: Throwable)

  /** The exception a caught throwable is reported as: an Error is wrapped in a
      JPPFException, anything else is already an Exception. */
  function AsException(t: Throwable): (e: Throwable)
    ensures !e.Error?
    ensures !t.Error? ==> e == t
    ensures t.Error? ==> e.JPPFException? && e.cause == t
  {
    if t.Error? then JPPFException(t) else t
  }

  /** The header of a bundle as exchanged with a node. The bundle parameters the core
      reads are typed fields here: TASK_MAX_RESUBMITS, ALREADY_PERSISTED_P2P,
      NODE_OFFLINE_CLOSE_REQUEST, NODE_EXCEPTION_PARAM, SYSTEM_INFO_PARAM and
      NODE_BUNDLE_ELAPSED_PARAM. System information is an opaque reference. */
  datatype JobHeader = JobHeader(
    uuid: string,
    bundleId: int,
    handshake: bool,
    taskCount: int,
    requeue: bool,
    maxResubmitsParam: Option<int>,
    alreadyPersistedP2P: bool,
    offlineCloseRequest: bool,
    nodeException: Option<Throwable>,
    systemInfo: Option<int>,
    bundleElapsedParam: Option<int>,
    nodeExecutionTime: int,
    executionStartTime: int)

  /** A data location of a message: the serialized header, or opaque serialized data
      (the data provider or a task). */
  datatype Location = HeaderData(header: JobHeader) | Data(ref: int)

  /** A task of a dispatched bundle: its serialized form and its resubmit count. */
  datatype ServerTask = ServerTask(initialTask: Location, resubmitCount: int)

  /** The serialized forms of the tasks, in task order. */
  function InitialTasks(tasks: seq<ServerTask>): (r: seq<Location>)
    ensures |r| == |tasks|
    ensures forall i :: 0 <= i < |tasks| ==> r[i] == tasks[i].initialTask
  {
    seq(|tasks|, i requires 0 <= i < |tasks| => tasks[i].initialTask)
  }

  /** A call made on a dispatched bundle (or, for the expiration and client-job
      entries, on the collaborator that owns it). */
  datatype BundleEvent =
    | ExpirationCancelled
    | ReturnReasonNodeChannelError
    | TaskCompleted(exception: Option<Throwable>)
    | Resubmitted
    | TaskResubmitted(position: nat)
    | ResultsReceived(results: seq<Location>)
    | ErrorReceived(error: Throwable)
    | ClientJobTaskCompleted(exception: Option<Throwable>)
    | HandedToOfflineHandler

  /** A bundle dispatched to a node (ServerTaskBundleNode). `applyMaxResubmitMetadata`
      is the job metadata parameter "jppf.job.applyMaxResubmitOnNodeError" (default
      false); the two SLA fields come from the job's SLA, `persistent` from the server
      job. */
  class NodeBundle {
    const id: int
    var job: JobHeader
    const dataProvider: Location
    var tasks: seq<ServerTask>
    const applyMaxResubmitMetadata: bool
    const slaApplyMaxResubmits: bool
    const slaMaxTaskResubmits: int
    const persistent: bool
    var offline: bool
    var events: seq<BundleEvent>

    constructor (id: int, job: JobHeader, dataProvider: Location, tasks: seq<ServerTask>,
                 applyMaxResubmitMetadata: bool, slaApplyMaxResubmits: bool, slaMaxTaskResubmits: int, persistent: bool)
      ensures this.id == id && this.job == job && this.dataProvider == dataProvider && this.tasks == tasks
      ensures this.applyMaxResubmitMetadata == applyMaxResubmitMetadata
      ensures this.slaApplyMaxResubmits == slaApplyMaxResubmits && this.slaMaxTaskResubmits == slaMaxTaskResubmits
      ensures this.persistent == persistent && !offline && events == []
    {
      this.id := id;
      this.job := job;
      this.dataProvider := dataProvider;
      this.tasks := tasks;
      this.applyMaxResubmitMetadata := applyMaxResubmitMetadata;
      this.slaApplyMaxResubmits := slaApplyMaxResubmits;
      this.slaMaxTaskResubmits := slaMaxTaskResubmits;
      this.persistent := persistent;
      offline := false;
      events := [];
    }
  }
}
