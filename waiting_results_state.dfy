/** The node-server state that reads a bundle's results back from a node
    (WaitingResultsState): when the message is complete it hands the results to the
    dispatched bundle, gives the load balancer its feedback, completes the bundle, and
    sends the channel back to idle. */
module WaitingResults {
  import opened JavaLang
  import opened ServerBundle

  /** The transitions this state can return. */
  datatype NodeTransition = ToWaitingResults | ToIdle | ToIdlePeer

  /** What performTransition ends with: a transition, `null` (the channel was closed by
      an offline request), or a NullPointerException when the context holds no bundle. */
  datatype Outcome = Next(transition: NodeTransition) | NullTransition | NullPointerThrown

  /** What context.deserializeBundle() gives: the received header and task locations,
      or the throwable it raised. */
  datatype Deserialized = Got(header: JobHeader, tasks: seq<Location>) | Threw(t: Throwable)

  /** A call on the channel's load balancer: `feedback(taskCount, elapsed)`, the BundlerEx
      variant with the accumulated time and the transport overhead, and the NodeAwareness
      update with the node's system information. */
  datatype BundlerCall =
    | Feedback(taskCount: int, elapsed: int)
    | FeedbackEx(taskCount: int, elapsed: int, accumulated: int, overhead: int)
    | NodeConfiguration(info: int)

  /** Everything one call of performTransition does, as a value. */
  datatype Effects = Effects(
    outcome: Outcome,
    events: seq<BundleEvent>,
    bundlerCalls: seq<BundlerCall>,
    nodeInfo: Option<int>,
    clearsBundle: bool,
    clearsMessage: bool,
    offlineHandOver: bool)

  /** The effects of processResults on a received header: the results or the node's
      exception go to the bundle, feedback goes to the load balancer when there is no
      node exception, the system information (if any) is recorded, and the requeue flag
      is read off the header. `elapsed` is the time since the dispatch started. */
  function ProcessResults(h: JobHeader, tasks: seq<Location>, elapsed: int, bundlerIsEx: bool, nodeAware: bool)
    : (r: (seq<BundleEvent>, seq<BundlerCall>, Option<Throwable>, bool))
  {
    var (events, feedback, exception) :=
      match h.nodeException
      case Some(t) => ([ErrorReceived(t)], [], Some(AsException(t)))
      case None =>
        var accumulated := if h.bundleElapsedParam.Some? then h.bundleElapsedParam.value else -1;
        ([ResultsReceived(tasks)],
         [if bundlerIsEx then FeedbackEx(h.taskCount, elapsed, accumulated, elapsed - h.nodeExecutionTime)
          else Feedback(h.taskCount, elapsed)],
         None);
    var configuration := if h.systemInfo.Some? && nodeAware then [NodeConfiguration(h.systemInfo.value)] else [];
    (events, feedback + configuration, exception, h.requeue)
  }

  /** performTransition, as a function of the inputs it reads: whether the message is
      complete, what deserialization gave, whether the context holds a bundle (and that
      bundle's dispatch start time), the peer flag, the kind of load balancer, and the
      current time. */
  function Transition(complete: bool, received: Deserialized, hasBundle: bool, startTime: int,
                      peer: bool, bundlerIsEx: bool, nodeAware: bool, now: int): Effects
  {
    var idle := Next(if peer then ToIdlePeer else ToIdle);
    if !complete then Effects(Next(ToWaitingResults), [], [], None, false, false, false)
    else if received.Got? && received.header.offlineCloseRequest then
      Effects(NullTransition, [], [], None, false, false, true)
    else if !hasBundle then Effects(NullPointerThrown, [], [], None, false, false, false)
    else if received.Threw? then
      Effects(idle, [ErrorReceived(received.t), TaskCompleted(Some(AsException(received.t)))], [], None, true, true, false)
    else
      var (events, calls, exception, requeue) :=
        ProcessResults(received.header, received.tasks, now - startTime, bundlerIsEx, nodeAware);
      Effects(idle, events + [TaskCompleted(exception)] + (if requeue then [Resubmitted] else []),
              calls, received.header.systemInfo, true, true, false)
  }

  /** The number of TaskCompleted calls in a list of events. */
  function Completions(events: seq<BundleEvent>): nat {
    if |events| == 0 then 0 else (if events[0].TaskCompleted? then 1 else 0) + Completions(events[1..])
  }

  lemma {:induction false} CompletionsAppend(a: seq<BundleEvent>, b: seq<BundleEvent>)
    ensures Completions(a + b) == Completions(a) + Completions(b)
    decreases |a|
  {
    if |a| > 0 {
      assert (a + b)[0] == a[0] && (a + b)[1..] == a[1..] + b;
      CompletionsAppend(a[1..], b);
    } else {
      assert a + b == b;
    }
  }

  /** An incomplete message changes nothing and keeps waiting for results. */
  lemma IncompleteMessageWaits(received: Deserialized, hasBundle: bool, startTime: int, peer: bool, ex: bool, aware: bool, now: int)
    ensures var e := Transition(false, received, hasBundle, startTime, peer, ex, aware, now);
      e.outcome == Next(ToWaitingResults) && e.events == [] && e.bundlerCalls == []
      && !e.clearsBundle && !e.clearsMessage && !e.offlineHandOver && e.nodeInfo == None
  {
  }

  /** An offline close request returns null and neither completes nor clears the bundle;
      the bundle goes to the offline handler instead. */
  lemma OfflineRequestLeavesBundle(h: JobHeader, tasks: seq<Location>, hasBundle: bool, startTime: int, peer: bool, ex: bool, aware: bool, now: int)
    requires h.offlineCloseRequest
    ensures var e := Transition(true, Got(h, tasks), hasBundle, startTime, peer, ex, aware, now);
      e.outcome == NullTransition && Completions(e.events) == 0 && !e.clearsBundle && !e.clearsMessage && e.offlineHandOver
  {
  }

  /** Otherwise, with a bundle in the context, the bundle is completed exactly once, the
      context's bundle and message are cleared and the channel goes idle; a requeue flag
      resubmits the bundle after its completion, and nothing else resubmits it. */
  lemma CompletedOnceThenIdle(received: Deserialized, startTime: int, peer: bool, ex: bool, aware: bool, now: int)
    requires !(received.Got? && received.header.offlineCloseRequest)
    ensures var e := Transition(true, received, true, startTime, peer, ex, aware, now);
      && e.outcome == Next(if peer then ToIdlePeer else ToIdle)
      && Completions(e.events) == 1
      && e.clearsBundle && e.clearsMessage && !e.offlineHandOver
      && (Resubmitted in e.events <==> received.Got? && received.header.requeue)
      && (Resubmitted in e.events ==> e.events[|e.events| - 1] == Resubmitted && e.events[|e.events| - 2].TaskCompleted?)
  {
    var e := Transition(true, received, true, startTime, peer, ex, aware, now);
    if received.Got? {
      var (events, calls, exception, requeue) := ProcessResults(received.header, received.tasks, now - startTime, ex, aware);
      var tail := if requeue then [Resubmitted] else [];
      CompletionsAppend(events, [TaskCompleted(exception)]);
      CompletionsAppend(events + [TaskCompleted(exception)], tail);
      assert Completions(events) == 0;
      assert Completions(tail) == 0;
    } else {
      assert Completions(e.events) == Completions(e.events[1..]) + 0;
    }
  }

  /** A node exception in the header goes to the bundle as an error and yields no
      feedback; the bundle is completed with that exception (wrapped if it is an Error). */
  lemma NodeExceptionNoFeedback(h: JobHeader, tasks: seq<Location>, startTime: int, peer: bool, ex: bool, aware: bool, now: int)
    requires !h.offlineCloseRequest && h.nodeException.Some?
    ensures var e := Transition(true, Got(h, tasks), true, startTime, peer, ex, aware, now);
      && e.events[0] == ErrorReceived(h.nodeException.value)
      && e.events[1] == TaskCompleted(Some(AsException(h.nodeException.value)))
      && forall c :: c in e.bundlerCalls ==> c.NodeConfiguration?
  {
  }

  /** Without a node exception the results go to the bundle first, and exactly one
      feedback call carries the header's task count; the bundle completes with no
      exception. */
  lemma ResultsThenOneFeedback(h: JobHeader, tasks: seq<Location>, startTime: int, peer: bool, ex: bool, aware: bool, now: int)
    requires !h.offlineCloseRequest && h.nodeException.None?
    ensures var e := Transition(true, Got(h, tasks), true, startTime, peer, ex, aware, now);
      && e.events[0] == ResultsReceived(tasks)
      && e.events[1] == TaskCompleted(None)
      && |e.bundlerCalls| >= 1
      && !e.bundlerCalls[0].NodeConfiguration? && e.bundlerCalls[0].taskCount == h.taskCount
      && e.bundlerCalls[0].elapsed == now - startTime
      && forall i :: 1 <= i < |e.bundlerCalls| ==> e.bundlerCalls[i].NodeConfiguration?
  {
  }

  /** A throwable raised while reading the results is first reported to the bundle as
      its results, then completes it as a non-null exception (an Error wrapped in a
      JPPFException); the load balancer gets no feedback, no node information is
      recorded, and the channel goes idle with its bundle and message cleared. */
  lemma ThrowableCompletesWithException(t: Throwable, startTime: int, peer: bool, ex: bool, aware: bool, now: int)
    ensures var e := Transition(true, Threw(t), true, startTime, peer, ex, aware, now);
      && e.events == [ErrorReceived(t), TaskCompleted(Some(AsException(t)))]
      && !AsException(t).Error?
      && (t.Error? ==> AsException(t) == JPPFException(t))
      && e.bundlerCalls == [] && e.nodeInfo.None?
      && e.outcome == Next(if peer then ToIdlePeer else ToIdle)
      && e.clearsBundle && e.clearsMessage && !e.offlineHandOver
  {
  }

  /** The channel context, as far as this state is concerned (AbstractNodeContext). The
      message is an opaque reference; the offline handler's list and the cleanup flag
      record the two calls processOfflineRequest makes. */
  class NodeChannelContext {
    var bundle: NodeBundle?
    var message: Option<int>
    const peer: bool
    const bundlerIsEx: bool
    const bundlerNodeAware: bool
    var bundlerCalls: seq<BundlerCall>
    var nodeInfo: Option<int>
    var offlineBundles: seq<NodeBundle?>
    var cleanedUp: bool

    constructor (bundle: NodeBundle?, message: Option<int>, peer: bool, bundlerIsEx: bool, bundlerNodeAware: bool)
      ensures this.bundle == bundle && this.message == message && this.peer == peer
      ensures this.bundlerIsEx == bundlerIsEx && this.bundlerNodeAware == bundlerNodeAware
      ensures bundlerCalls == [] && nodeInfo == None && offlineBundles == [] && !cleanedUp
    {
      this.bundle := bundle;
      this.message := message;
      this.peer := peer;
      this.bundlerIsEx := bundlerIsEx;
      this.bundlerNodeAware := bundlerNodeAware;
      bundlerCalls := [];
      nodeInfo := None;
      offlineBundles := [];
      cleanedUp := false;
    }

    /** performTransition: `complete` is what context.readMessage returned, `received`
        what context.deserializeBundle gave, `now` the value of System.nanoTime(). */
    method PerformTransition(complete: bool, received: Deserialized, now: int) returns (outcome: Outcome)
      modifies this, bundle
      ensures var e := Transition(complete, received, old(bundle) != null,
                                  if old(bundle) != null then old(bundle.job.executionStartTime) else 0,
                                  peer, bundlerIsEx, bundlerNodeAware, now);
        && outcome == e.outcome
        && (old(bundle) != null ==>
              && old(bundle).events == old(bundle.events) + e.events
              && old(bundle).tasks == old(bundle.tasks) && old(bundle).job == old(bundle.job)
              && old(bundle).offline == old(bundle.offline))
        && bundlerCalls == old(bundlerCalls) + e.bundlerCalls
        && nodeInfo == (if e.nodeInfo.Some? then e.nodeInfo else old(nodeInfo))
        && bundle == (if e.clearsBundle then null else old(bundle))
        && message == (if e.clearsMessage then None else old(message))
        && offlineBundles == old(offlineBundles) + (if e.offlineHandOver then [old(bundle)] else [])
        && cleanedUp == (old(cleanedUp) || e.offlineHandOver)
    {
      if !complete {
        return Next(ToWaitingResults);
      }
      var nodeBundle := bundle;
      var exception: Option<Throwable> := None;
      var requeue := false;
      if received.Got? && received.header.offlineCloseRequest {
        outcome := ProcessOfflineRequest();
        return;
      }
      if nodeBundle == null {
        return NullPointerThrown;
      }
      match received {
        case Threw(t) =>
          exception := Some(AsException(t));
          nodeBundle.events := nodeBundle.events + [ErrorReceived(t)];
        case Got(h, tasks) =>
          exception, requeue := ProcessResultsOn(nodeBundle, h, tasks, now);
      }
      nodeBundle.events := nodeBundle.events + [TaskCompleted(exception)];
      bundle := null;
      if requeue {
        nodeBundle.events := nodeBundle.events + [Resubmitted];
      }
      message := None;
      outcome := Next(if peer then ToIdlePeer else ToIdle);
    }

    /** processResults, applied to the bundle, the load balancer and the context. */
    method ProcessResultsOn(nodeBundle: NodeBundle, h: JobHeader, tasks: seq<Location>, now: int)
      returns (exception: Option<Throwable>, requeue: bool)
      modifies this, nodeBundle
      ensures var r := ProcessResults(h, tasks, now - old(nodeBundle.job.executionStartTime), bundlerIsEx, bundlerNodeAware);
        && nodeBundle.events == old(nodeBundle.events) + r.0
        && bundlerCalls == old(bundlerCalls) + r.1
        && exception == r.2 && requeue == r.3
      ensures nodeInfo == if h.systemInfo.Some? then h.systemInfo else old(nodeInfo)
      ensures nodeBundle.tasks == old(nodeBundle.tasks) && nodeBundle.job == old(nodeBundle.job)
      ensures nodeBundle.offline == old(nodeBundle.offline)
      ensures bundle == old(bundle) && message == old(message)
      ensures offlineBundles == old(offlineBundles) && cleanedUp == old(cleanedUp)
    {
      match h.nodeException {
        case Some(t) =>
          exception := Some(AsException(t));
          nodeBundle.events := nodeBundle.events + [ErrorReceived(t)];
        case None =>
          exception := None;
          nodeBundle.events := nodeBundle.events + [ResultsReceived(tasks)];
          var elapsed := now - nodeBundle.job.executionStartTime;
          if bundlerIsEx {
            var accumulated := if h.bundleElapsedParam.Some? then h.bundleElapsedParam.value else -1;
            bundlerCalls := bundlerCalls + [FeedbackEx(h.taskCount, elapsed, accumulated, elapsed - h.nodeExecutionTime)];
          } else {
            bundlerCalls := bundlerCalls + [Feedback(h.taskCount, elapsed)];
          }
      }
      requeue := h.requeue;
      if h.systemInfo.Some? {
        nodeInfo := h.systemInfo;
        if bundlerNodeAware {
          bundlerCalls := bundlerCalls + [NodeConfiguration(h.systemInfo.value)];
        }
      }
    }

    /** processOfflineRequest: hand the bundle to the offline handler, clean the channel
        up, and return a null transition. */
    method ProcessOfflineRequest() returns (outcome: Outcome)
      modifies this
      ensures outcome == NullTransition
      ensures offlineBundles == old(offlineBundles) + [bundle] && cleanedUp
      ensures bundle == old(bundle) && message == old(message)
      ensures bundlerCalls == old(bundlerCalls) && nodeInfo == old(nodeInfo)
    {
      offlineBundles := offlineBundles + [bundle];
      cleanedUp := true;
      outcome := NullTransition;
    }
  }
}
