# A verified model of the JPPF client pools, node channels and utilities

This project models, in Dafny, the parts of JPPF (the Java Parallel Processing Framework) that hold state and make decisions on the client, on the driver's node channels and in the shared utilities. It proves properties of that model.

- `ClientPools` (AbstractJPPFClient): client connections grouped by priority into pools. Each pool hands out its connections round-robin. `getClientConnection` selects an ACTIVE connection from the highest-priority pool that has one, and prunes FAILED connections and emptied pools along the way. The descending priority comparator is modelled too.
- `GenericClient` (AbstractGenericClient): the connection names built for each configured driver and the parsing of the driver list. It also covers the connections available for execution, the local-execution handshake, and the map from request uuids to class loaders.
- `AsyncNode` (AsyncNodeContext): the driver-side state of one node channel. This is the table of bundles in flight, the job-to-bundle-ids multimap, the message queue, the closed flag and the execution status. It also covers the resubmission of a bundle whose node failed.
- `NodeReservation` (NodeReservationHandler): the nodes reserved for jobs that ask for a node configuration. Two maps and two multimaps are kept inverse to each other.
- `WaitingResults` (WaitingResultsState): reading a bundle's results back from a node.
- `JobSla`, `Priority`, `ManagementInfo`, `Task`, `TimeoutConfiguration`, `TuneProfile`, `Bundler`: the value-like and bean-like classes JPPFJobSLA, JPPFPriority, JPPFManagementInfo, JPPFTask, JPPFTimeoutConfiguration, ProportionalTuneProfile and AbstractBundler.
- `ProcessWrapper` (ProcessWrapper): how a process's output is split into chunks, and how chunks are fanned out to listeners.
- `MultiplexerContext` (MultiplexerContext): the port, queue and counter state of a multiplexer channel.
- `ConcurrentUtils` (ConcurrentUtils): `runWithRetry` and the argument checks of the await helpers.
- `LocalNodeWrapper` (LocalNodeWrapperHandler): the in-JVM channel between the driver and a local node.

Three modules support the other modules:
- `JavaLang` gives Java's value semantics: null, 32- and 64-bit wrap-around, `String.compareTo` and `String.hashCode`.
- `Schedules` stands in for JPPFSchedule.
- `ServerBundle` stands in for the dispatched bundle and its header. It records the calls made on them.

Objects whose fields the Java code updates in place are Dafny classes. Their methods state the whole new state. Pure decisions are functions, and the properties are proved about those functions as lemmas. Other threads, the clock and I/O become parameters: a status snapshot, a callable given by the outcome of each of its calls, or a stream given by its characters.

## Model

| member | source | states |
|---|---|---|
| ClientPools.CompareDescendingAsWritten | client/src/java/org/jppf/client/AbstractJPPFClient.java:366-369 | the comparator as written: `o2 - o1` wrapped to a 32-bit int, so its result is always an int value |
| ClientPools.CompareDescending | client/src/java/org/jppf/client/AbstractJPPFClient.java:357-369 | the descending order the comparator is meant to give: negative exactly when o1 > o2, zero exactly when they are equal, positive exactly when o1 < o2 |
| ClientPools.CompareDescendingIsOrder | client/src/java/org/jppf/client/AbstractJPPFClient.java:357-369 | the meant order is antisymmetric and transitive, and equal results are interchangeable |
| ClientPools.CompareDescendingAgreesWithoutOverflow | client/src/java/org/jppf/client/AbstractJPPFClient.java:366-369 | when `o2 - o1` fits an int, the comparator as written has the sign of the meant order |
| ClientPools.CompareDescendingAsWrittenOverflows | client/src/java/org/jppf/client/AbstractJPPFClient.java:366-369 | compare(1, Integer.MIN_VALUE) is positive although 1 > MIN_VALUE, and the written order is not transitive (1 before 0 and 0 before MIN_VALUE) |
| ClientPools.Start | client/src/java/org/jppf/client/AbstractJPPFClient.java:340 | the slot nextClient moves the cursor to lies inside the list |
| ClientPools.Next | client/src/java/org/jppf/client/AbstractJPPFClient.java:337-342 | nextClient returns null exactly on an empty pool; otherwise the cursor moves into [0, size) and the connection returned is the one at the cursor; the list is unchanged |
| ClientPools.RotationPermutes | client/src/java/org/jppf/client/AbstractJPPFClient.java:337-342 | the order in which nextClient hands out connections holds every connection of the pool, each as often as the pool does |
| ClientPools.RotationAdvance | client/src/java/org/jppf/client/AbstractJPPFClient.java:337-342 | after nextClient the hand-out order starts one further and ends with the connection just handed out |
| ClientPools.RotationRemove | client/src/java/org/jppf/client/AbstractJPPFClient.java:168-171 | removing the connection just handed out and stepping the cursor back keeps the remaining hand-out order |
| ClientPools.Rotation | client/src/java/org/jppf/client/AbstractJPPFClient.java:337-342 | the order in which successive nextClient calls hand out the pool's connections, starting after the cursor; its properties are RotationPermutes, RotationAdvance and RotationRemove |
| ClientPools.NextCalls | client/src/java/org/jppf/client/AbstractJPPFClient.java:337-342 | k calls of nextClient on a non-empty pool hand out k connections |
| ClientPools.NextCallsRoundRobin | client/src/java/org/jppf/client/AbstractJPPFClient.java:337-342 | round robin: k successive calls hand out the first k connections of the rotation, so a full cycle hands out every connection exactly once |
| ClientPools.Kept | client/src/java/org/jppf/client/AbstractJPPFClient.java:168-169 | the connections the scan keeps are exactly those not FAILED |
| ClientPools.DistinctRemoveFirst | client/src/java/org/jppf/client/AbstractJPPFClient.java:169 | List.remove keeps a pool free of duplicates |
| ClientPools.ScanPool | client/src/java/org/jppf/client/AbstractJPPFClient.java:157-176 | the scan of one pool (corrected, see Findings): it keeps the pool valid, only removes connections, and a connection it returns is ACTIVE and still in the pool |
| ClientPools.ScanPoolStep | client/src/java/org/jppf/client/AbstractJPPFClient.java:159-175 | one step of the scan is nextClient followed by a stop on ACTIVE, a removal on FAILED, or nothing |
| ClientPools.ScanPoolSpec | client/src/java/org/jppf/client/AbstractJPPFClient.java:157-176 | a scan of the whole pool finds nothing exactly when no connection is ACTIVE, and then leaves exactly the connections not FAILED; otherwise it returns the first ACTIVE connection in round-robin order, having dropped only the FAILED connections met before it |
| ClientPools.ScanPoolAsWrittenSkipsActive | client/src/java/org/jppf/client/AbstractJPPFClient.java:157-176 | in a pool [f, a] with the cursor on a, f FAILED and a ACTIVE, the scan as written removes f and stops without examining a, whereas the corrected scan returns a |
| ClientPools.ScanPoolAsWritten | client/src/java/org/jppf/client/AbstractJPPFClient.java:157-176 | the scan of one pool as written (Findings row 2): the count against the shrinking size and the cursor stepped back only at the end of the list; ScanPoolAsWrittenSkipsActive exhibits the skipped ACTIVE connection |
| ClientPools.Without | client/src/java/org/jppf/client/AbstractJPPFClient.java:178 | removing priorities from the map keeps exactly the other priorities, still in descending order |
| ClientPools.InsertDescending | client/src/java/org/jppf/client/AbstractJPPFClient.java:61 | a new priority put into the TreeMap keeps its keys in descending order, the old keys and the new one; the order is that of the corrected comparator of Findings row 1, not of `o2 - o1` |
| ClientPools.DescendingIsCompareOrder | client/src/java/org/jppf/client/AbstractJPPFClient.java:357-369 | the key order kept beside the map is exactly the order of the corrected comparator: every key compares before each later key |
| ClientPools.ScanPools | client/src/java/org/jppf/client/AbstractJPPFClient.java:153-177 | scanning the pools in a given order keeps every pool valid and the map's keys, and a connection found is ACTIVE (corrected comparator and scan, see Findings rows 1-2) |
| ClientPools.ScanPoolsShrinks | client/src/java/org/jppf/client/AbstractJPPFClient.java:153-177 | scanning changes no pool not listed, and only removes connections (corrected comparator and scan, see Findings rows 1-2) |
| ClientPools.ScanPoolsNone | client/src/java/org/jppf/client/AbstractJPPFClient.java:153-177 | a scan that finds nothing went through every listed pool, none having an ACTIVE connection (corrected comparator and scan, see Findings rows 1-2) |
| ClientPools.ScanPoolsNoneKept | client/src/java/org/jppf/client/AbstractJPPFClient.java:168-177 | a scan that finds nothing leaves each listed pool with exactly its connections that are not FAILED (corrected comparator and scan, see Findings rows 1-2) |
| ClientPools.ScanPoolsFound | client/src/java/org/jppf/client/AbstractJPPFClient.java:153-167 | a connection found comes from one of the listed pools, and every pool listed before that one has no ACTIVE connection (corrected comparator and scan, see Findings rows 1-2) |
| ClientPools.Empties | client/src/java/org/jppf/client/AbstractJPPFClient.java:172 | the priorities to remove are exactly those whose pool is left empty |
| ClientPools.Round | client/src/java/org/jppf/client/AbstractJPPFClient.java:151-178 | one pass of the outer loop keeps the map ordered and valid, only removes priorities, leaves no empty pool, and returns only an ACTIVE connection (corrected comparator and scan, see Findings rows 1-2) |
| ClientPools.RoundNullIffNoneActive | client/src/java/org/jppf/client/AbstractJPPFClient.java:149-178 | one pass returns null exactly when no pool holds an ACTIVE connection (corrected comparator and scan, see Findings rows 1-2) |
| ClientPools.RoundFindsHighestActive | client/src/java/org/jppf/client/AbstractJPPFClient.java:149-167 | a connection returned is ACTIVE and belongs to the highest-priority pool that has an ACTIVE connection (corrected comparator and scan, see Findings rows 1-2) |
| ClientPools.RoundPrunesFailed | client/src/java/org/jppf/client/AbstractJPPFClient.java:168-178 | a pass that finds nothing leaves every pool with exactly its connections not FAILED and drops the pools left empty (corrected comparator and scan, see Findings rows 1-2) |
| ClientPools.RoundWithin | client/src/java/org/jppf/client/AbstractJPPFClient.java:149-178 | a pass only removes connections and pools, and returns a connection of one of its pools (corrected comparator and scan, see Findings rows 1-2) |
| ClientPools.Attempts | client/src/java/org/jppf/client/AbstractJPPFClient.java:144-189 | getClientConnection(oneAttempt) over successive passes keeps the map ordered and valid and only removes priorities (corrected comparator and scan, see Findings rows 1-2) |
| ClientPools.AttemptsShrink | client/src/java/org/jppf/client/AbstractJPPFClient.java:149-185 | waiting for a connection only ever removes connections and pools (corrected comparator and scan, see Findings rows 1-2) |
| ClientPools.AttemptsFoundActive | client/src/java/org/jppf/client/AbstractJPPFClient.java:149-167 | a connection returned is ACTIVE in the status snapshot of the pass that found it (corrected comparator and scan, see Findings rows 1-2) |
| ClientPools.AttemptsFoundInPools | client/src/java/org/jppf/client/AbstractJPPFClient.java:149-167 | a connection returned belongs to a pool the client had at the start (corrected comparator and scan, see Findings rows 1-2) |
| ClientPools.AttemptsGiveUp | client/src/java/org/jppf/client/AbstractJPPFClient.java:149-185 | without oneAttempt, null is returned only once no pool is left; with oneAttempt only the first pass runs and the client never waits (corrected comparator and scan, see Findings rows 1-2) |
| ClientPools.AfterStatusChange | client/src/java/org/jppf/client/AbstractJPPFClient.java:271-285 | statusChanged on the pools keeps the map ordered and valid |
| ClientPools.RemoveFromDistinct | client/src/java/org/jppf/client/AbstractJPPFClient.java:282-283 | removing c from a list without duplicates removes c and only c, and leaves the list empty exactly when it was [c] |
| ClientPools.AfterStatusChangeSpec | client/src/java/org/jppf/client/AbstractJPPFClient.java:274-284 | any status but FAILED changes nothing; a FAILED connection is in no pool afterwards, every other connection stays in its pool, no empty pool remains, and the fatal error is raised exactly when that connection was the only one left |
| ClientPools.AddConnection | client/src/java/org/jppf/client/AbstractJPPFClient.java:58-69 | assumed effect of addClientConnection (its body is not among the source files, see Left out) on the pools and list declared here: the connection goes into the pool of its priority, created when missing, and the map stays ordered and valid |
| ClientPools.AddConnectionSpec | client/src/java/org/jppf/client/AbstractJPPFClient.java:320-331 | assumed effect of addClientConnection (its body is not among the source files, see Left out) on a ClientPool: the connection is appended to the pool of its priority, a new pool starting with lastUsedIndex 0 (line 327); every other pool is untouched and the cursor does not move |
| ClientPools.AddConnectionOwned | client/src/java/org/jppf/client/AbstractJPPFClient.java:58-69 | assumed effect of addClientConnection (its body is not among the source files, see Left out) on the pools and list declared here: every pool stays non-empty and holds only connections of its own priority that the client created |
| ClientPools.AfterStatusChangeOwned | client/src/java/org/jppf/client/AbstractJPPFClient.java:274-284 | statusChanged keeps every pool non-empty and holding only connections of its own priority created by the client |
| ClientPools.ClientPool.constructor | client/src/java/org/jppf/client/AbstractJPPFClient.java:318-331 | a new pool: the given priority, cursor 0, no connection |
| ClientPools.ClientPool.NextClient | client/src/java/org/jppf/client/AbstractJPPFClient.java:337-342 | nextClient on the pool object follows Next: the connection returned and the pool's new contents |
| ClientPools.ClientPool.DropCurrent | client/src/java/org/jppf/client/AbstractJPPFClient.java:168-171 | a FAILED connection is removed and the cursor steps back one slot (corrected, see Findings) |
| ClientPools.ClientPool.ScanStep | client/src/java/org/jppf/client/AbstractJPPFClient.java:159-175 | one pass of the inner loop advances ScanPool by one connection, or ends it when a connection is found or the pool is empty |
| ClientPools.ClientPool.Scan | client/src/java/org/jppf/client/AbstractJPPFClient.java:157-176 | the inner loop over one pool computes ScanPool on the pool's contents at the start (corrected comparator and scan, see Findings rows 1-2) |
| ClientPools.Client.constructor | client/src/java/org/jppf/client/AbstractJPPFClient.java:83-86 | a new client with its uuid, no pool and no connection |
| ClientPools.Client.DropPools | client/src/java/org/jppf/client/AbstractJPPFClient.java:178 | the pools of the given priorities are removed from the map and from its key order; all other pools are kept |
| ClientPools.Client.AddClientConnection | client/src/java/org/jppf/client/AbstractJPPFClient.java:58-69 | assumed effect of addClientConnection (its body is not among the source files, see Left out) on the pools and list declared here: the connection is appended to allConnections and the pools become AddConnection of the old pools |
| ClientPools.Client.GetAllConnectionNames | client/src/java/org/jppf/client/AbstractJPPFClient.java:107-112 | the names of all the connections, one per connection, in creation order |
| ClientPools.Client.GetClientConnectionByName | client/src/java/org/jppf/client/AbstractJPPFClient.java:119-126 | the first connection created with that name, or null exactly when no connection has that name |
| ClientPools.Client.ScanOne | client/src/java/org/jppf/client/AbstractJPPFClient.java:155-176 | scanning the pool of one priority computes ScanPool on it and leaves every other pool as it was (corrected comparator and scan, see Findings rows 1-2) |
| ClientPools.Client.ScanInOrder | client/src/java/org/jppf/client/AbstractJPPFClient.java:151-177 | the loop over the pools in the map's order computes ScanPools and returns exactly the priorities whose pool became empty (corrected comparator and scan, see Findings rows 1-2) |
| ClientPools.Client.ScanRound | client/src/java/org/jppf/client/AbstractJPPFClient.java:151-178 | one pass of the outer loop computes Round on the pools (corrected comparator and scan, see Findings rows 1-2) |
| ClientPools.Client.GetClientConnection | client/src/java/org/jppf/client/AbstractJPPFClient.java:144-189 | getClientConnection(oneAttempt) computes Attempts on the pools, one status snapshot per pass, and keeps the client's invariant (corrected comparator and scan, see Findings rows 1-2) |
| ClientPools.Client.RemoveFailed | client/src/java/org/jppf/client/AbstractJPPFClient.java:278-284 | the connection is removed from the pool of its priority, and the pool with it once it is empty |
| ClientPools.Client.StatusChanged | client/src/java/org/jppf/client/AbstractJPPFClient.java:271-285 | statusChanged computes AfterStatusChange on the pools and keeps the client's invariant |
| GenericClient.PoolSize | client/src/java/org/jppf/client/AbstractGenericClient.java:208-209 | the number of connections opened for a driver is at least 1, and the configured "jppf.pool.size" when that is at least 1 |
| GenericClient.ConnectionNames | client/src/java/org/jppf/client/AbstractGenericClient.java:210-212 | one name per connection opened, in creation order, the i-th being the driver's name suffixed with "-i" when the pool has more than one connection |
| GenericClient.ConnectionName | client/src/java/org/jppf/client/AbstractGenericClient.java:210-212 | the name of connection i of a driver; ConnectionNamesSpec states when it is suffixed and that the names are distinct |
| GenericClient.ConnectionNamesSpec | client/src/java/org/jppf/client/AbstractGenericClient.java:207-216 | a pool of one keeps the bare driver name; a larger pool names its connections name-1 .. name-n, all distinct |
| GenericClient.Fields | client/src/java/org/jppf/client/AbstractGenericClient.java:173 | the pieces between whitespace characters: at least one, none containing whitespace |
| GenericClient.DropTrailingEmpty | client/src/java/org/jppf/client/AbstractGenericClient.java:173 | String.split drops the trailing empty strings and nothing else |
| GenericClient.SplitOnSpace | client/src/java/org/jppf/client/AbstractGenericClient.java:173 | `split("\\s")` yields names that contain no whitespace character |
| GenericClient.DriverNames | client/src/java/org/jppf/client/AbstractGenericClient.java:170-173 | a missing or blank "jppf.drivers" value gives the single name "default-driver" |
| GenericClient.FieldsOfJoin | client/src/java/org/jppf/client/AbstractGenericClient.java:173 | the pieces of names joined by single spaces are those names |
| GenericClient.FieldsOfWord | client/src/java/org/jppf/client/AbstractGenericClient.java:173 | a word without whitespace is one piece |
| GenericClient.FieldsPrefix | client/src/java/org/jppf/client/AbstractGenericClient.java:173 | a word, a space and a string split into the word followed by the pieces of the string |
| GenericClient.SplitJoinRoundTrip | client/src/java/org/jppf/client/AbstractGenericClient.java:173 | splitting a space-separated list of non-empty names gives back the names |
| GenericClient.SplitKeepsLeadingEmpty | client/src/java/org/jppf/client/AbstractGenericClient.java:173 | a leading whitespace character yields a leading empty driver name |
| GenericClient.SplitKeepsInnerEmpty | client/src/java/org/jppf/client/AbstractGenericClient.java:173 | two whitespace characters in a row yield an empty driver name between them |
| GenericClient.SplitDropsTrailingEmpty | client/src/java/org/jppf/client/AbstractGenericClient.java:173 | a trailing whitespace character yields no trailing empty name |
| GenericClient.DriverSettings | client/src/java/org/jppf/client/AbstractGenericClient.java:183-187 | a driver's host, port, management port and priority are read under its name, defaulting to "localhost", 11111, 11198 and 0 |
| GenericClient.ListedDrivers | client/src/java/org/jppf/client/AbstractGenericClient.java:180-192 | at most one driver per listed name, each named in the list and none named "jppf_discovery" |
| GenericClient.ListedDriversComplete | client/src/java/org/jppf/client/AbstractGenericClient.java:180-192 | every listed name other than "jppf_discovery" gets a driver with its settings |
| GenericClient.ListedDriversSettings | client/src/java/org/jppf/client/AbstractGenericClient.java:183-190 | every driver configured carries the settings read under its own name |
| GenericClient.ConfiguredDriversSpec | client/src/java/org/jppf/client/AbstractGenericClient.java:164-193 | with discovery enabled and no "jppf_discovery" in the list no driver is configured; otherwise exactly the listed names other than "jppf_discovery" are, each with its settings |
| GenericClient.ConfiguredDrivers | client/src/java/org/jppf/client/AbstractGenericClient.java:164-193 | the drivers read from the configuration; ConfiguredDriversSpec, ListedDrivers, ListedDriversComplete and ListedDriversSettings state their properties |
| GenericClient.DefaultDriverOnly | client/src/java/org/jppf/client/AbstractGenericClient.java:170-190 | with no driver list and discovery disabled, one driver "default-driver" on localhost, ports 11111 and 11198, priority 0 |
| GenericClient.LoaderPut | client/src/java/org/jppf/client/AbstractGenericClient.java:338-341 | put into the Hashtable: a null uuid or loader throws; otherwise the uuid maps to the loader given and every other entry is kept |
| GenericClient.LoaderRemove | client/src/java/org/jppf/client/AbstractGenericClient.java:347-350 | remove from the Hashtable: a null uuid throws; otherwise the uuid's entry goes and every other entry is kept |
| GenericClient.LoaderGet | client/src/java/org/jppf/client/AbstractGenericClient.java:357-360 | get from the Hashtable: a null uuid throws; otherwise the loader registered under the uuid, or null when there is none |
| GenericClient.LoaderMapRoundTrip | client/src/java/org/jppf/client/AbstractGenericClient.java:338-360 | put then get returns the loader put, remove then get returns null, and neither disturbs another uuid |
| GenericClient.AvailableAfter | client/src/java/org/jppf/client/AbstractGenericClient.java:446-454 | an ACTIVE connection is appended to the available list; any other status removes one occurrence when there is one |
| GenericClient.AvailableAfterSpec | client/src/java/org/jppf/client/AbstractGenericClient.java:446-454 | each ACTIVE event adds one occurrence and each other event removes one; a connection made ACTIVE and then anything else leaves a list that did not hold it as it was |
| GenericClient.Client.constructor | client/src/java/org/jppf/client/AbstractGenericClient.java:95-138 | a new client: no connection available, no class loader, local execution as configured and not running |
| GenericClient.Client.HasAvailableConnection | client/src/java/org/jppf/client/AbstractGenericClient.java:384-395 | true exactly when a connection is available or local execution is enabled and not running |
| GenericClient.Client.HandleAvailableConnection | client/src/java/org/jppf/client/AbstractGenericClient.java:401-414 | b1 as hasAvailableConnection; b2 exactly when the local slot was free, which this call then takes, so b2 implies b1 and an immediate second call returns b2 false |
| GenericClient.Client.HandleAvailableConnection2 | client/src/java/org/jppf/client/AbstractGenericClient.java:420-433 | the same check and the same taking of the local slot, returning b1 only |
| GenericClient.Client.IsLocalExecutionEnabled | client/src/java/org/jppf/client/AbstractGenericClient.java:366-369 | the load balancer's local-execution flag |
| GenericClient.Client.SetLocalExecutionEnabled | client/src/java/org/jppf/client/AbstractGenericClient.java:375-378 | sets that flag and nothing else |
| GenericClient.Client.StatusChanged | client/src/java/org/jppf/client/AbstractGenericClient.java:441-455 | the base client's pool pruning first, then the available list becomes AvailableAfter, unless the pruning raised the fatal error |
| GenericClient.Client.AddRequestClassLoader | client/src/java/org/jppf/client/AbstractGenericClient.java:338-341 | the loader map becomes LoaderPut, or is unchanged on a NullPointerException |
| GenericClient.Client.RemoveRequestClassLoader | client/src/java/org/jppf/client/AbstractGenericClient.java:347-350 | the loader map becomes LoaderRemove, or is unchanged on a NullPointerException |
| GenericClient.Client.GetRequestClassLoader | client/src/java/org/jppf/client/AbstractGenericClient.java:357-360 | the result of LoaderGet on the loader map |
| AsyncNode.EntryKeysCollide | server/src/java/org/jppf/server/nio/nodeserver/async/AsyncNodeContext.java:237 | the entry of job "a1", bundle 2 and that of job "a", bundle 12 share the key "a12" |
| AsyncNode.EntryKeyInjectiveOnEqualLengthUuids | server/src/java/org/jppf/server/nio/nodeserver/async/AsyncNodeContext.java:237 | for uuids of one length, equal entry keys mean equal uuids and equal bundle ids |
| AsyncNode.EntryKey | server/src/java/org/jppf/server/nio/nodeserver/async/AsyncNodeContext.java:237 | the entry-map key `uuid + bundleId`; EntryKeysCollide and EntryKeyInjectiveOnEqualLengthUuids state when keys collide |
| AsyncNode.AddId | server/src/java/org/jppf/server/nio/nodeserver/async/AsyncNodeContext.java:236 | after putValue the job is a key of the multimap and lists the bundle id |
| AsyncNode.RemoveIdUndoesAddId | server/src/java/org/jppf/server/nio/nodeserver/async/AsyncNodeContext.java:233-263 | removing the id just added for a job that did not list it gives back the same multimap |
| AsyncNode.RemoveIdAfterRepeatedAddId | server/src/java/org/jppf/server/nio/nodeserver/async/AsyncNodeContext.java:233-263 | when the job already listed the id, add then remove keeps the same ids as a multiset, the earlier occurrence having gone |
| AsyncNode.RemoveId | server/src/java/org/jppf/server/nio/nodeserver/async/AsyncNodeContext.java:260 | removeValue on the job-to-bundle-ids multimap; RemoveIdUndoesAddId and RemoveIdAfterRepeatedAddId state its effect |
| AsyncNode.PrepareHeader | server/src/java/org/jppf/server/nio/nodeserver/async/AsyncNodeContext.java:161-165 | the header gets the bundle id; a non-handshake job loses TASK_MAX_RESUBMITS towards a node, and gets ALREADY_PERSISTED_P2P towards a peer when its job is persistent; a handshake header only gets the id; every other field is kept |
| AsyncNode.PrepareHeaderIdempotent | server/src/java/org/jppf/server/nio/nodeserver/async/AsyncNodeContext.java:161-165 | preparing a header twice for the same bundle is the same as preparing it once |
| AsyncNode.Deserialize | server/src/java/org/jppf/server/nio/nodeserver/async/AsyncNodeContext.java:179-188 | the header is the in-memory one if present, otherwise the one unwrapped from location 0; every location after the first is a task, in order; it fails exactly when there is no in-memory header and location 0 is missing or not a header |
| AsyncNode.LayoutRoundTrip | server/src/java/org/jppf/server/nio/nodeserver/async/AsyncNodeContext.java:157-188 | a message laid out by serializeBundle has n + 2 locations and reads back, with or without its in-memory header, as its header and, as tasks, the data provider followed by the initial tasks in order |
| AsyncNode.Layout | server/src/java/org/jppf/server/nio/nodeserver/async/AsyncNodeContext.java:157-171 | the locations serializeBundle writes: header, data provider, then the tasks; LayoutRoundTrip states that deserializeBundle reads them back |
| AsyncNode.ResubmitEvents | server/src/java/org/jppf/server/nio/nodeserver/async/AsyncNodeContext.java:130-137 | the tasks resubmitted under the max-resubmit policy: at most one per task, each a position in the bundle |
| AsyncNode.Bumped | server/src/java/org/jppf/server/nio/nodeserver/async/AsyncNodeContext.java:133 | every task's resubmit count is incremented; the tasks themselves are kept in order |
| AsyncNode.NodeErrorEventsSpec | server/src/java/org/jppf/server/nio/nodeserver/async/AsyncNodeContext.java:114-145 | the bundle is first completed with the exception; a handshake job stops there; the client job is notified and the whole bundle resubmitted exactly when the max-resubmit policy is off, and the initial tasks are returned as results exactly when it is on |
| AsyncNode.NodeErrorEvents | server/src/java/org/jppf/server/nio/nodeserver/async/AsyncNodeContext.java:114-145 | the calls handleException makes on the bundle; NodeErrorEventsSpec states their order and branches |
| AsyncNode.ResubmitEventsOrdered | server/src/java/org/jppf/server/nio/nodeserver/async/AsyncNodeContext.java:130-137 | tasks are resubmitted in task order, each at most once |
| AsyncNode.ResubmitEventsExact | server/src/java/org/jppf/server/nio/nodeserver/async/AsyncNodeContext.java:132-136 | a task is resubmitted exactly when its incremented resubmit count is at most the SLA's maximum |
| AsyncNode.GrantedResubmitsBudget | server/src/java/org/jppf/server/nio/nodeserver/async/AsyncNodeContext.java:132-136 | over k node failures a task whose count starts at c is resubmitted min(k, max - c) times, and never once its count has reached the maximum |
| AsyncNode.ResubmitPass | server/src/java/org/jppf/server/nio/nodeserver/async/AsyncNodeContext.java:128-137 | the per-task loop computes the incremented tasks, the resubmissions of ResubmitEvents, and every initial task as a result, in order |
| AsyncNode.AsyncNodeContext.constructor | server/src/java/org/jppf/server/nio/nodeserver/async/AsyncNodeContext.java:59-92 | a new channel: no entry, no listed bundle id, nothing to send, not closed, maxJobs 0 |
| AsyncNode.AsyncNodeContext.AddJobEntry | server/src/java/org/jppf/server/nio/nodeserver/async/AsyncNodeContext.java:233-239 | the bundle is stored under uuid + bundleId, so getJobEntry returns it, and its id is listed for its job; nothing else changes |
| AsyncNode.AsyncNodeContext.RemoveJobEntry | server/src/java/org/jppf/server/nio/nodeserver/async/AsyncNodeContext.java:257-263 | returns what getJobEntry returned, after which getJobEntry returns null; the entry and one listing of the id are removed; nothing else changes |
| AsyncNode.AsyncNodeContext.GetJobEntry | server/src/java/org/jppf/server/nio/nodeserver/async/AsyncNodeContext.java:247-249 | getJobEntry: the entry under `uuid + bundleId`; AddJobEntry and RemoveJobEntry state what it returns after each |
| AsyncNode.AsyncNodeContext.CurrentNbJobs | server/src/java/org/jppf/server/nio/nodeserver/async/AsyncNodeContext.java:354-358 | getCurrentNbJobs: the number of entries; Submit states the EXECUTING status it decides |
| AsyncNode.AsyncNodeContext.OfferMessageToSend | server/src/java/org/jppf/server/nio/nodeserver/async/AsyncNodeContext.java:294-297 | the message is queued last; nothing else changes |
| AsyncNode.AsyncNodeContext.NextMessageToSend | server/src/java/org/jppf/server/nio/nodeserver/async/AsyncNodeContext.java:299-302 | the oldest queued message, removed, or null on an empty queue |
| AsyncNode.AsyncNodeContext.Close | server/src/java/org/jppf/server/nio/nodeserver/async/AsyncNodeContext.java:331-346 | only the first call acts: it clears the entries, the multimap and the send queue and sets the status to FAILED; a later call changes nothing |
| AsyncNode.AsyncNodeContext.SetMaxJobs | server/src/java/org/jppf/server/nio/nodeserver/async/AsyncNodeContext.java:428-430 | sets maxJobs and nothing else |
| AsyncNode.AsyncNodeContext.SerializeBundle | server/src/java/org/jppf/server/nio/nodeserver/async/AsyncNodeContext.java:157-171 | the bundle's header becomes PrepareHeader of the old one, and the message is the header, the data provider, then the initial tasks in order |
| AsyncNode.AsyncNodeContext.Submit | server/src/java/org/jppf/server/nio/nodeserver/async/AsyncNodeContext.java:361-372 | the bundle is registered, the status becomes EXECUTING when the number of entries reaches maxJobs, the bundle takes the channel's offline flag, and the message laid out from its prepared header and its unchanged tasks is queued last; its tasks and calls are not touched |
| AsyncNode.AsyncNodeContext.HandleBundleException | server/src/java/org/jppf/server/nio/nodeserver/async/AsyncNodeContext.java:114-149 | on a non-null bundle the calls made are NodeErrorEvents, the policy being the metadata flag or the SLA flag; the tasks' counts are incremented exactly under that policy for a non-handshake job |
| NodeReservation.PutValue | server/src/java/org/jppf/server/nio/nodeserver/NodeReservationHandler.java:101 | putValue adds the node to the job's set, changes no other job's set, and makes the job a key |
| NodeReservation.RemoveValue | server/src/java/org/jppf/server/nio/nodeserver/NodeReservationHandler.java:113 | removeValue takes the node out of the job's set only, and a key is present exactly while its set is non-empty |
| NodeReservation.Promote | server/src/java/org/jppf/server/nio/nodeserver/NodeReservationHandler.java:199-220 | transitionReservation succeeds exactly when a reserved job is set, an old uuid is set, and the pending map sends the old uuid to that job; without a reserved job it returns false; a missing old uuid throws in the map lookup; a failed transition leaves all four maps unchanged |
| NodeReservation.InverseNodesFor | server/src/java/org/jppf/server/nio/nodeserver/NodeReservationHandler.java:48-60 | when a node map and a multimap are inverse, the set listed under a job is the set of nodes the node map sends to it |
| NodeReservation.NbReservedNodesCountsNodeMaps | server/src/java/org/jppf/server/nio/nodeserver/NodeReservationHandler.java:185-192 | getNbReservedNodes is the number of nodes pending for the job plus the number ready for it, an absent key counting 0 |
| NodeReservation.HasNodeIff | server/src/java/org/jppf/server/nio/nodeserver/NodeReservationHandler.java:158-169 | hasPendingNode / hasReadyNode hold exactly when some node is pending / ready for the job |
| NodeReservation.ReservedJobsAreTargets | server/src/java/org/jppf/server/nio/nodeserver/NodeReservationHandler.java:226-230 | getReservedJobs, the union of the keys of the two multimaps, is the set of jobs some node is reserved for |
| NodeReservation.ReservedNodesAreListed | server/src/java/org/jppf/server/nio/nodeserver/NodeReservationHandler.java:236-240 | getReservedNodes, the union of the keys of the two node maps, is the set of nodes listed under some job |
| NodeReservation.InverseRemoveNode | server/src/java/org/jppf/server/nio/nodeserver/NodeReservationHandler.java:112-115 | taking a node out of a node map and out of its job's set keeps the pair inverse |
| NodeReservation.InverseDropJob | server/src/java/org/jppf/server/nio/nodeserver/NodeReservationHandler.java:125-132 | taking a job out of a multimap and its nodes out of the node map keeps the pair inverse and leaves no node mapped to the job |
| NodeReservation.InversePut | server/src/java/org/jppf/server/nio/nodeserver/NodeReservationHandler.java:100-101 | mapping a node that is mapped to no other job, and adding it to the job's set, keeps the pair inverse |
| NodeReservation.ReservePreservesConsistency | server/src/java/org/jppf/server/nio/nodeserver/NodeReservationHandler.java:97-102 | doReservation keeps the four maps consistent when the node is not pending for another job, and the node is then pending for the job and listed under it |
| NodeReservation.ReserveOverAnotherJobBreaksConsistency | server/src/java/org/jppf/server/nio/nodeserver/NodeReservationHandler.java:100-101 | a node already pending for another job is overwritten in the pending map but stays listed under the previous job, so the maps are no longer inverse |
| NodeReservation.RemoveNodeClears | server/src/java/org/jppf/server/nio/nodeserver/NodeReservationHandler.java:110-117 | removeReservation leaves the node with no reservation in any of the four maps and keeps the maps consistent |
| NodeReservation.RemoveNodeKeepsOthers | server/src/java/org/jppf/server/nio/nodeserver/NodeReservationHandler.java:110-117 | removeReservation changes no other node's pending or ready job |
| NodeReservation.CancelJobClears | server/src/java/org/jppf/server/nio/nodeserver/NodeReservationHandler.java:123-133 | onJobCancelled leaves no node reserved for the job and the job in no map, keeps the maps consistent, and changes no other node's reservation |
| NodeReservation.PromoteMovesReservation | server/src/java/org/jppf/server/nio/nodeserver/NodeReservationHandler.java:206-216 | a successful transition removes the old uuid from the pending side and puts the new uuid on the ready side for the job, keeping the maps consistent when the new uuid is not ready for another job |
| NodeReservation.Reserve | server/src/java/org/jppf/server/nio/nodeserver/NodeReservationHandler.java:97-102 | doReservation on the four maps: the node pending for the job in both directions; ReservePreservesConsistency and ReserveOverAnotherJobBreaksConsistency state its effect |
| NodeReservation.RemoveNode | server/src/java/org/jppf/server/nio/nodeserver/NodeReservationHandler.java:110-117 | removeReservation on the four maps; RemoveNodeClears and RemoveNodeKeepsOthers state its effect |
| NodeReservation.CancelJob | server/src/java/org/jppf/server/nio/nodeserver/NodeReservationHandler.java:123-133 | onJobCancelled on the four maps; CancelJobClears states its effect |
| NodeReservation.HasPendingNode | server/src/java/org/jppf/server/nio/nodeserver/NodeReservationHandler.java:158-163 | hasPendingNode, as a key test on the job-to-pending multimap; HasNodeIff states what it means |
| NodeReservation.HasReadyNode | server/src/java/org/jppf/server/nio/nodeserver/NodeReservationHandler.java:164-169 | hasReadyNode, as a key test on the job-to-ready multimap; HasNodeIff states what it means |
| NodeReservation.NbReservedNodes | server/src/java/org/jppf/server/nio/nodeserver/NodeReservationHandler.java:185-192 | getNbReservedNodes on the two multimaps; NbReservedNodesCountsNodeMaps states what it counts |
| NodeReservation.ReservedJobs | server/src/java/org/jppf/server/nio/nodeserver/NodeReservationHandler.java:226-230 | getReservedJobs as the union of the multimaps' keys; ReservedJobsAreTargets states what it means |
| NodeReservation.ReservedNodes | server/src/java/org/jppf/server/nio/nodeserver/NodeReservationHandler.java:236-240 | getReservedNodes as the union of the node maps' keys; ReservedNodesAreListed states what it means |
| NodeReservation.NodeContext.constructor | server/src/java/org/jppf/server/nio/nodeserver/NodeReservationHandler.java:199-204 | a node context with its uuid, its transition and the reserved-job and reserved-uuid properties it reports |
| NodeReservation.NodeReservationHandler.constructor | server/src/java/org/jppf/server/nio/nodeserver/NodeReservationHandler.java:48-90 | a new handler: all four maps empty |
| NodeReservation.NodeReservationHandler.DoReservation | server/src/java/org/jppf/server/nio/nodeserver/NodeReservationHandler.java:97-102 | the four maps become Reserve of the old ones |
| NodeReservation.NodeReservationHandler.RemoveReservation | server/src/java/org/jppf/server/nio/nodeserver/NodeReservationHandler.java:110-117 | the four maps become RemoveNode of the old ones and the node's transition becomes REMOVE |
| NodeReservation.NodeReservationHandler.CancelPending | server/src/java/org/jppf/server/nio/nodeserver/NodeReservationHandler.java:125-128 | the job's key leaves the pending multimap and each of its nodes leaves the pending map; the ready side is unchanged |
| NodeReservation.NodeReservationHandler.CancelReady | server/src/java/org/jppf/server/nio/nodeserver/NodeReservationHandler.java:129-132 | the job's key leaves the ready multimap and each of its nodes leaves the ready map; the pending side is unchanged |
| NodeReservation.NodeReservationHandler.OnJobCancelled | server/src/java/org/jppf/server/nio/nodeserver/NodeReservationHandler.java:123-133 | the four maps become CancelJob of the old ones |
| NodeReservation.NodeReservationHandler.TransitionReservation | server/src/java/org/jppf/server/nio/nodeserver/NodeReservationHandler.java:199-220 | outcome and maps are those of Promote; the node's transition becomes REMOVE exactly on success |
| ServerBundle.AsException | server/src/java/org/jppf/server/nio/nodeserver/WaitingResultsState.java:76 | a caught throwable is reported as an exception: an Error is wrapped in a JPPFException whose cause it is, anything else is passed on as is |
| ServerBundle.InitialTasks | server/src/java/org/jppf/server/nio/nodeserver/async/AsyncNodeContext.java:131 | the serialized form of each task, one per task, in task order |
| WaitingResults.CompletionsAppend | server/src/java/org/jppf/server/nio/nodeserver/WaitingResultsState.java:79-80 | the completions of two event lists add up |
| WaitingResults.IncompleteMessageWaits | server/src/java/org/jppf/server/nio/nodeserver/WaitingResultsState.java:60-90 | an incomplete message returns TO_WAITING_RESULTS and changes neither the bundle, the load balancer nor the context |
| WaitingResults.OfflineRequestLeavesBundle | server/src/java/org/jppf/server/nio/nodeserver/WaitingResultsState.java:69-82 | an offline close request returns null; the bundle is neither completed nor cleared from the context and is handed to the offline handler |
| WaitingResults.CompletedOnceThenIdle | server/src/java/org/jppf/server/nio/nodeserver/WaitingResultsState.java:74-88 | otherwise, with a bundle, taskCompleted is called exactly once, the context's bundle and message are cleared, the result is TO_IDLE_PEER for a peer and TO_IDLE otherwise, and a requeue flag resubmits the bundle after its completion |
| WaitingResults.NodeExceptionNoFeedback | server/src/java/org/jppf/server/nio/nodeserver/WaitingResultsState.java:105-110 | a node exception in the header is passed to resultsReceived, the load balancer gets no feedback, and the bundle is completed with that exception (wrapped if it is an Error) |
| WaitingResults.ResultsThenOneFeedback | server/src/java/org/jppf/server/nio/nodeserver/WaitingResultsState.java:111-122 | without a node exception the task results go to the bundle first, exactly one feedback call carries the header's task count, and the bundle completes with no exception |
| WaitingResults.ThrowableCompletesWithException | server/src/java/org/jppf/server/nio/nodeserver/WaitingResultsState.java:74-80 | a throwable raised by deserializeBundle is passed to resultsReceived, then taskCompleted gets it as an exception, an Error wrapped in a JPPFException; no feedback, no node information, and the channel goes idle with bundle and message cleared |
| WaitingResults.Transition | server/src/java/org/jppf/server/nio/nodeserver/WaitingResultsState.java:57-91 | performTransition as a value of everything it does; its effects are stated by IncompleteMessageWaits, OfflineRequestLeavesBundle, CompletedOnceThenIdle, NodeExceptionNoFeedback, ResultsThenOneFeedback and ThrowableCompletesWithException |
| WaitingResults.ProcessResults | server/src/java/org/jppf/server/nio/nodeserver/WaitingResultsState.java:100-129 | processResults as a value: events, load-balancer calls, exception and requeue flag; NodeExceptionNoFeedback and ResultsThenOneFeedback state its two branches |
| WaitingResults.NodeChannelContext.constructor | server/src/java/org/jppf/server/nio/nodeserver/WaitingResultsState.java:58-62 | a context holding the bundle and message it is given, with no load-balancer call, node information or offline hand-over yet |
| WaitingResults.NodeChannelContext.PerformTransition | server/src/java/org/jppf/server/nio/nodeserver/WaitingResultsState.java:57-91 | the outcome, the bundle's calls, the load balancer's calls and the context's new bundle, message and node information are those Transition computes; the bundle's tasks, header and offline flag stay as they were |
| WaitingResults.NodeChannelContext.ProcessResultsOn | server/src/java/org/jppf/server/nio/nodeserver/WaitingResultsState.java:100-129 | the bundle's calls and the load balancer's calls are those ProcessResults computes from the time elapsed since dispatch; the node information is replaced when the header carries one; the bundle's tasks, header and offline flag stay as they were |
| WaitingResults.NodeChannelContext.ProcessOfflineRequest | server/src/java/org/jppf/server/nio/nodeserver/WaitingResultsState.java:137-142 | the bundle is handed to the offline handler, the channel is cleaned up, and the transition is null; nothing else changes |
| JobSla.NormalizeMaxNodes | common/src/java/org/jppf/server/protocol/JPPFJobSLA.java:162-165 | maxNodes is always between 1 and Integer.MAX_VALUE, and equals the value given exactly when that is positive |
| JobSla.NormalizeMaxNodesIdempotent | common/src/java/org/jppf/server/protocol/JPPFJobSLA.java:162-165 | normalising twice changes nothing and a valid maxNodes is kept, which is why copy() can go through the setter |
| JobSla.Constructed | common/src/java/org/jppf/server/protocol/JPPFJobSLA.java:105-111 | the four-argument constructor keeps policy, priority and suspended, and normalises maxNodes; the other fields keep their defaults |
| JobSla.ConvenienceConstructors | common/src/java/org/jppf/server/protocol/JPPFJobSLA.java:41-96 | the one- and two-argument constructors give the defaults (priority 0, maxNodes Integer.MAX_VALUE, not suspended, not broadcast, cancelled on client disconnect, no schedules) with the policy, and the priority when given |
| JobSla.Sla.constructor | common/src/java/org/jppf/server/protocol/JPPFJobSLA.java:41-77 | new JPPFJobSLA() has every field at its default |
| JobSla.Sla.WithLimits | common/src/java/org/jppf/server/protocol/JPPFJobSLA.java:105-111 | the four-argument constructor gives the fields of Constructed |
| JobSla.Sla.SetPolicy | common/src/java/org/jppf/server/protocol/JPPFJobSLA.java:126-129 | only the execution policy changes |
| JobSla.Sla.SetPriority | common/src/java/org/jppf/server/protocol/JPPFJobSLA.java:144-147 | only the priority changes, to any int |
| JobSla.Sla.SetMaxNodes | common/src/java/org/jppf/server/protocol/JPPFJobSLA.java:162-165 | only maxNodes changes, to the normalised value, so it stays positive |
| JobSla.Sla.SetSuspended | common/src/java/org/jppf/server/protocol/JPPFJobSLA.java:180-183 | only the suspended flag changes |
| JobSla.Sla.SetJobSchedule | common/src/java/org/jppf/server/protocol/JPPFJobSLA.java:198-201 | only the job schedule changes |
| JobSla.Sla.SetExpirationSchedule | common/src/java/org/jppf/server/protocol/JPPFJobSLA.java:216-219 | only the expiration schedule changes |
| JobSla.Sla.SetBroadcast | common/src/java/org/jppf/server/protocol/JPPFJobSLA.java:234-237 | only the broadcast flag changes |
| JobSla.Sla.SetCancelUponClientDisconnect | common/src/java/org/jppf/server/protocol/JPPFJobSLA.java:252-255 | only the cancel-upon-disconnect flag changes |
| JobSla.Sla.Copy | common/src/java/org/jppf/server/protocol/JPPFJobSLA.java:261-273 | a new SLA, equal to this one on all eight fields |
| Priority.NewPriority | server/src/java/org/jppf/server/queue/JPPFPriority.java:39-65 | getValue returns the value the priority was built with |
| Priority.CompareTo | server/src/java/org/jppf/server/queue/JPPFPriority.java:51-56 | 1 against null; otherwise negative exactly when this value is higher, zero exactly when the values are equal, always -1, 0 or 1 |
| Priority.CompareToIsOrder | server/src/java/org/jppf/server/queue/JPPFPriority.java:55 | on non-null priorities the order is antisymmetric and transitive, zero exactly on equal priorities, and has no overflow (Integer.MAX_VALUE sorts before Integer.MIN_VALUE) |
| ManagementInfo.NewInfo | node/src/java/org/jppf/management/JPPFManagementInfo.java:99-106 | the fields are those given, the type being the int narrowed to a byte |
| ManagementInfo.NewNodeInfo | node/src/java/org/jppf/management/JPPFManagementInfo.java:74-77 | the three-argument constructor makes a node that is not a driver and not secure |
| ManagementInfo.TypeIsLowByte | node/src/java/org/jppf/management/JPPFManagementInfo.java:98-105 | the type is the low byte of the int given: 257 makes a node and 256 a driver |
| ManagementInfo.IsNode | node/src/java/org/jppf/management/JPPFManagementInfo.java:229-232 | isNode: the type is NODE; NewNodeInfo and TypeIsLowByte state which infos are nodes |
| ManagementInfo.IsDriver | node/src/java/org/jppf/management/JPPFManagementInfo.java:239-242 | isDriver: the type is DRIVER; NewNodeInfo and TypeIsLowByte state which infos are drivers |
| ManagementInfo.EqualsIsIdEquality | node/src/java/org/jppf/management/JPPFManagementInfo.java:143-152 | equals holds exactly when the ids are both null or equal, so it is reflexive, symmetric and transitive |
| ManagementInfo.Equals | node/src/java/org/jppf/management/JPPFManagementInfo.java:144-152 | equals on two infos; EqualsIsIdEquality states that it is id equality and an equivalence |
| ManagementInfo.HashCode | node/src/java/org/jppf/management/JPPFManagementInfo.java:131-135 | 0 for a null id, otherwise the id's String.hashCode, an int |
| ManagementInfo.HashCodeConsistent | node/src/java/org/jppf/management/JPPFManagementInfo.java:131-152 | equal infos have equal hash codes |
| ManagementInfo.CompareTo | node/src/java/org/jppf/management/JPPFManagementInfo.java:160-172 | 1 against null, and 0 against an equal info; for an unequal info a NullPointerException exactly when either host is null (the ordering itself is CompareToOrder) |
| ManagementInfo.CompareToOrder | node/src/java/org/jppf/management/JPPFManagementInfo.java:165-171 | for distinct infos with hosts, different hosts are in reverse String order (whatever the comment says), and equal hosts order by port ascending |
| ManagementInfo.CompareToInconsistentWithEquals | node/src/java/org/jppf/management/JPPFManagementInfo.java:164-171 | two infos with different ids on the same host and port are not equal yet compare as 0 |
| Schedules.DurationSchedule | common/src/java/org/jppf/server/protocol/JPPFTask.java:190-193 | a schedule built from a duration has that duration and no date or format |
| Schedules.DateSchedule | common/src/java/org/jppf/server/protocol/JPPFTask.java:228-231 | a schedule built from a date and format has duration 0 and that date and format |
| Task.JppfTask.constructor | common/src/java/org/jppf/server/protocol/JPPFTask.java:54-86 | a new task: position 0, no result, exception, schedule or id, and not in a node |
| Task.JppfTask.SetPosition | common/src/java/org/jppf/server/protocol/JPPFTask.java:130-134 | only the position changes |
| Task.JppfTask.SetResult | common/src/java/org/jppf/server/protocol/JPPFTask.java:94-98 | only the result changes |
| Task.JppfTask.SetException | common/src/java/org/jppf/server/protocol/JPPFTask.java:106-110 | only the exception changes |
| Task.JppfTask.SetId | common/src/java/org/jppf/server/protocol/JPPFTask.java:239-243 | only the id changes |
| Task.JppfTask.SetInNode | common/src/java/org/jppf/server/protocol/JPPFTask.java:295-299 | only the in-node flag changes |
| Task.JppfTask.GetTimeout | common/src/java/org/jppf/server/protocol/JPPFTask.java:178-182 | 0 without a timeout schedule, the schedule's duration otherwise |
| Task.JppfTask.GetTimeoutDate | common/src/java/org/jppf/server/protocol/JPPFTask.java:201-205 | null without a timeout schedule, the schedule's date otherwise |
| Task.JppfTask.GetTimeoutFormat | common/src/java/org/jppf/server/protocol/JPPFTask.java:213-217 | null without a timeout schedule, the schedule's format otherwise |
| Task.JppfTask.SetTimeout | common/src/java/org/jppf/server/protocol/JPPFTask.java:190-193 | a duration schedule replaces whatever schedule was set, so the last of setTimeout and setTimeoutDate wins; nothing else changes |
| Task.JppfTask.SetTimeoutDate | common/src/java/org/jppf/server/protocol/JPPFTask.java:228-231 | a date schedule replaces whatever schedule was set; nothing else changes |
| Task.JppfTask.SetTimeoutSchedule | common/src/java/org/jppf/server/protocol/JPPFTask.java:279-283 | only the timeout schedule changes |
| TuneProfile.FactorKeyMisspelt | common/src/java/org/jppf/server/scheduler/bundle/proportional/ProportionalTuneProfile.java:62 | the key read for the factor is not "strategy.<name>.proportionalityFactor", so a correctly spelt setting is never read |
| TuneProfile.KeysDistinct | common/src/java/org/jppf/server/scheduler/bundle/proportional/ProportionalTuneProfile.java:59-62 | the two keys of a profile differ, so neither setting reads the other's value |
| TuneProfile.Profile.constructor | common/src/java/org/jppf/server/scheduler/bundle/proportional/ProportionalTuneProfile.java:40-51 | a new profile has cache size 2000 and proportionality factor 2 |
| TuneProfile.Profile.Named | common/src/java/org/jppf/server/scheduler/bundle/proportional/ProportionalTuneProfile.java:57-63 | each setting is read from "strategy.<name>.performanceCacheSize" and "strategy.<name>.propertionalityFactor", defaulting to 2000 and 2 when absent |
| TuneProfile.Profile.SetPerformanceCacheSize | common/src/java/org/jppf/server/scheduler/bundle/proportional/ProportionalTuneProfile.java:91-94 | only the cache size changes |
| TuneProfile.Profile.SetProportionalityFactor | common/src/java/org/jppf/server/scheduler/bundle/proportional/ProportionalTuneProfile.java:109-112 | only the factor changes |
| TuneProfile.Profile.Copy | common/src/java/org/jppf/server/scheduler/bundle/proportional/ProportionalTuneProfile.java:70-76 | a new profile with both settings equal to this one's |
| TuneProfile.Defaults.constructor | common/src/java/org/jppf/server/scheduler/bundle/proportional/ProportionalTuneProfile.java:36 | the shared default profile is created with the default settings |
| TuneProfile.Defaults.GetDefaultProfile | common/src/java/org/jppf/server/scheduler/bundle/proportional/ProportionalTuneProfile.java:118-121 | the same shared instance on every call |
| TimeoutConfiguration.Timeout.FromDuration | common/src/java/org/jppf/timeout/JPPFTimeoutConfiguration.java:49-52 | the duration is set and the date and format stay null |
| TimeoutConfiguration.Timeout.FromDate | common/src/java/org/jppf/timeout/JPPFTimeoutConfiguration.java:59-63 | the date and format are set and the duration stays 0 |
| TimeoutConfiguration.Timeout.SetTimeout | common/src/java/org/jppf/timeout/JPPFTimeoutConfiguration.java:78-83 | the duration replaces any date and format, so a non-zero duration never comes with a date |
| TimeoutConfiguration.Timeout.SetDate | common/src/java/org/jppf/timeout/JPPFTimeoutConfiguration.java:111-116 | the date and format replace any duration, which becomes 0 |
| Bundler.Counter.constructor | server/src/java/org/jppf/server/scheduler/bundle/AbstractBundler.java:26 | the global count starts at 0 |
| Bundler.Counter.Inc | server/src/java/org/jppf/server/scheduler/bundle/AbstractBundler.java:45-48 | incBundlerCount returns the count after a 32-bit increment: one more than before, until Integer.MAX_VALUE wraps to Integer.MIN_VALUE |
| Bundler.AbstractBundler.constructor | server/src/java/org/jppf/server/scheduler/bundle/AbstractBundler.java:26-39 | a new bundler is numbered with the incremented global count, stamped with the clock reading, and has override off |
| Bundler.AbstractBundler.Feedback | server/src/java/org/jppf/server/scheduler/bundle/AbstractBundler.java:56-58 | feedback changes nothing |
| Bundler.AbstractBundler.SetOverride | server/src/java/org/jppf/server/scheduler/bundle/AbstractBundler.java:76-88 | isOverride then returns the value set |
| ProcessWrapper.ChunksWellFormed | common/src/java/org/jppf/process/ProcessWrapper.java:164-174 | every chunk passed on is non-empty, at most 8*1024 UTF-16 code units (what StringBuilder.length() counts), free of '\r', holds a '\n' only as its last character and ends with one unless full; what is left in the buffer at end of stream has no line end and is shorter than 8*1024 |
| ProcessWrapper.ChunksConcat | common/src/java/org/jppf/process/ProcessWrapper.java:166-175 | the chunks followed by the unflushed buffer are exactly the stream's code units with every '\r' removed, in order: nothing else is lost, added or reordered |
| ProcessWrapper.ChunksLoseTail | common/src/java/org/jppf/process/ProcessWrapper.java:166-175 | the text passed on is a prefix of the stream without '\r', and the rest of it is the unflushed buffer, dropped at end of stream |
| ProcessWrapper.UnterminatedLineLost | common/src/java/org/jppf/process/ProcessWrapper.java:168-174 | on a stream "a\r\nb" only "a\n" is passed on and "b" stays in the buffer |
| ProcessWrapper.SurrogatePairSplit | common/src/java/org/jppf/process/ProcessWrapper.java:167-174 | a supplementary character is two code units: read when the buffer is one unit short of 8*1024, its high surrogate ends the flushed chunk and its low surrogate starts the next buffer |
| ProcessWrapper.Step | common/src/java/org/jppf/process/ProcessWrapper.java:167-174 | one code unit returned by reader.read() in StreamHandler.run, the flush measured in code units; StepWellFormed and StepConcat state what it keeps |
| ProcessWrapper.Chunks | common/src/java/org/jppf/process/ProcessWrapper.java:166-175 | the chunks StreamHandler.run flushes from a stream of UTF-16 code units and the buffer it is left with; ChunksWellFormed, ChunksConcat and ChunksLoseTail state their properties |
| ProcessWrapper.Fanout | common/src/java/org/jppf/process/ProcessWrapper.java:105-111 | one event gives one callback per listener, in list order, each with the event's content and the callback the output flag selects |
| ProcessWrapper.NotifiedAppend | common/src/java/org/jppf/process/ProcessWrapper.java:166-175 | the callbacks for two runs of chunks are those of the first run followed by those of the second |
| ProcessWrapper.NotifiedSplit | common/src/java/org/jppf/process/ProcessWrapper.java:166-175 | each chunk reaches every listener once, after all callbacks of earlier chunks and before any of later ones |
| ProcessWrapper.NotifiedLength | common/src/java/org/jppf/process/ProcessWrapper.java:105-111 | a run of chunks makes exactly chunks × listeners callbacks |
| ProcessWrapper.Notified | common/src/java/org/jppf/process/ProcessWrapper.java:171-174 | the callbacks made for a run of chunks, chunk by chunk; NotifiedAppend, NotifiedSplit and NotifiedLength state their properties |
| ProcessWrapper.Wrapper.constructor | common/src/java/org/jppf/process/ProcessWrapper.java:47-48 | a new wrapper has no process, no name, no listener, and has started no stream handler |
| ProcessWrapper.Wrapper.WithProcess | common/src/java/org/jppf/process/ProcessWrapper.java:54-56 | a wrapper built with a process holds it and has started two unnamed handlers, output then error |
| ProcessWrapper.Wrapper.SetProcess | common/src/java/org/jppf/process/ProcessWrapper.java:71-82 | only the first process is kept; setting one starts an output handler and an error handler named name-out and name-err when the wrapper has a name; a null process on a wrapper without one fails with a NullPointerException and starts nothing; name, listeners and callbacks are unchanged |
| ProcessWrapper.Wrapper.Suffixed | common/src/java/org/jppf/process/ProcessWrapper.java:74-80 | a handler's thread name is absent exactly when the wrapper has no name, and is otherwise the name followed by the suffix ("-out" or "-err") |
| ProcessWrapper.Wrapper.SetName | common/src/java/org/jppf/process/ProcessWrapper.java:117-119 | only the name changes |
| ProcessWrapper.Wrapper.AddListener | common/src/java/org/jppf/process/ProcessWrapper.java:88-90 | the listener is appended to the list (duplicates allowed); nothing else changes |
| ProcessWrapper.Wrapper.RemoveListener | common/src/java/org/jppf/process/ProcessWrapper.java:96-98 | the first occurrence of the listener is removed from the list, if any; nothing else changes |
| ProcessWrapper.Wrapper.FireStreamEvent | common/src/java/org/jppf/process/ProcessWrapper.java:105-111 | the callbacks made are those of Fanout for the current listeners, appended to the log; nothing else changes |
| ProcessWrapper.Wrapper.HandleStream | common/src/java/org/jppf/process/ProcessWrapper.java:160-180 | draining a stream makes the callbacks of Notified over the chunks Chunks computes, in order, so every property proved of Chunks and Notified holds of the handler thread |
| ProcessWrapper.Wrapper.ReadChar | common/src/java/org/jppf/process/ProcessWrapper.java:167-174 | one code unit read moves the buffer and the fired chunks exactly as one chunking step, firing the chunk it flushes |
| MultiplexerContext.GetInt | common/src/java/org/jppf/server/nio/multiplexer/generic/MultiplexerContext.java:180-185 | reading the int at the start of a flipped buffer underflows exactly when fewer than four bytes were written, and otherwise gives a 32-bit int |
| MultiplexerContext.PutInt | common/src/java/org/jppf/server/nio/multiplexer/generic/MultiplexerContext.java:180-185 | the encoding GetInt reads is four bytes long |
| MultiplexerContext.GetPutInt | common/src/java/org/jppf/server/nio/multiplexer/generic/MultiplexerContext.java:180-185 | reading back an int written at the start of a buffer gives that int, whatever follows it |
| MultiplexerContext.PutGetInt | common/src/java/org/jppf/server/nio/multiplexer/generic/MultiplexerContext.java:180-185 | the int read is determined by the first four bytes alone and re-encodes to them |
| MultiplexerContext.GetPutIntAll | common/src/java/org/jppf/server/nio/multiplexer/generic/MultiplexerContext.java:180-185 | GetPutInt for every int and every tail |
| MultiplexerContext.Context.constructor | common/src/java/org/jppf/server/nio/multiplexer/generic/MultiplexerContext.java:47-71 | a new context has both ports -1, so it is neither an application nor a multiplexer port; nothing is queued, linked, current or read |
| MultiplexerContext.Context.SetBoundPort | common/src/java/org/jppf/server/nio/multiplexer/generic/MultiplexerContext.java:135-138 | the bound port is set, and the context is an application port exactly when it is positive |
| MultiplexerContext.Context.SetMultiplexerPort | common/src/java/org/jppf/server/nio/multiplexer/generic/MultiplexerContext.java:153-156 | the multiplexer port is set, and the context is a multiplexer port exactly when it is positive |
| MultiplexerContext.Context.SetLinkedKey | common/src/java/org/jppf/server/nio/multiplexer/generic/MultiplexerContext.java:117-120 | only the linked key changes |
| MultiplexerContext.Context.SetEof | common/src/java/org/jppf/server/nio/multiplexer/generic/MultiplexerContext.java:317-320 | only the end-of-stream flag changes |
| MultiplexerContext.Context.AddPendingMessage | common/src/java/org/jppf/server/nio/multiplexer/generic/MultiplexerContext.java:262-265 | a message is queued at the tail; a null one is refused and leaves the queue unchanged |
| MultiplexerContext.Context.NextPendingMessage | common/src/java/org/jppf/server/nio/multiplexer/generic/MultiplexerContext.java:271-274 | the head of the queue is removed and returned; an empty queue gives null and stays empty, so messages leave in the order they were queued |
| MultiplexerContext.Context.HasPendingMessage | common/src/java/org/jppf/server/nio/multiplexer/generic/MultiplexerContext.java:280-283 | true exactly when the queue is not empty |
| MultiplexerContext.Context.SetCurrentMessage | common/src/java/org/jppf/server/nio/multiplexer/generic/MultiplexerContext.java:298-302 | the current message is replaced; clearing one that was set returns its buffer to the pool, and nothing else is returned |
| MultiplexerContext.Context.NewReadMessageCount | common/src/java/org/jppf/server/nio/multiplexer/generic/MultiplexerContext.java:326-329 | the counter goes up by one and the new value is returned, wrapping from Integer.MAX_VALUE to Integer.MIN_VALUE |
| MultiplexerContext.Context.ReadOutBoundPort | common/src/java/org/jppf/server/nio/multiplexer/generic/MultiplexerContext.java:180-185 | -1 without a message; otherwise an underflow exactly when fewer than four bytes were written, and the port that was written at the start of the buffer when one was |
| ConcurrentUtils.RetryArguments | common/src/java/org/jppf/utils/concurrent/ConcurrentUtils.java:333-338 | runWithRetry is rejected exactly when maxTries or retryDelay is not positive, and returns null for a null callable only when both are valid |
| ConcurrentUtils.RunWithRetrySpec | common/src/java/org/jppf/utils/concurrent/ConcurrentUtils.java:333-352 | runWithRetry as a function of its arguments; RetryArguments, RetryFromBounds and FirstSuccessReturned state its properties |
| ConcurrentUtils.RetryFrom | common/src/java/org/jppf/utils/concurrent/ConcurrentUtils.java:339-351 | the retry loop from a given try on; RetryFromBounds states its bounds |
| ConcurrentUtils.RetryFromBounds | common/src/java/org/jppf/utils/concurrent/ConcurrentUtils.java:339-351 | at most maxTries calls are made; every call before the last fails; a value returned is that of the last call, which succeeded; an exception rethrown is that of call maxTries, all calls having failed |
| ConcurrentUtils.FirstSuccessReturned | common/src/java/org/jppf/utils/concurrent/ConcurrentUtils.java:339-351 | when the first successful call is within maxTries, runWithRetry returns its value after exactly that many calls |
| ConcurrentUtils.RunWithRetry | common/src/java/org/jppf/utils/concurrent/ConcurrentUtils.java:333-352 | the loop's outcome is RunWithRetrySpec's, so the properties above hold of it, and it sleeps once between consecutive calls and never after the last |
| ConcurrentUtils.Timeout | common/src/java/org/jppf/utils/concurrent/ConcurrentUtils.java:77 | the time polled for is positive: millis when positive, Long.MAX_VALUE for 0 |
| ConcurrentUtils.MonitorStart | common/src/java/org/jppf/utils/concurrent/ConcurrentUtils.java:72-78 | the checks awaitCondition(monitor, ...) makes, and waitForMonitor (lines 204-209) makes with its own interval message: rejected exactly for a null monitor, a negative interval, or a negative millis with a condition; a null condition returns at once; otherwise polls for Timeout(millis) |
| ConcurrentUtils.AwaitStartOf | common/src/java/org/jppf/utils/concurrent/ConcurrentUtils.java:117-120 | a null condition returns true at once whatever millis is; rejected exactly for a negative millis with a condition; otherwise polls for Timeout(millis) |
| ConcurrentUtils.AwaitInterruptibleStart | common/src/java/org/jppf/utils/concurrent/ConcurrentUtils.java:158-163 | a null condition returns true at once; rejected exactly for a negative millis or a non-positive retry interval with a condition, millis checked first; otherwise polls for Timeout(millis) |
| ConcurrentUtils.WaitForMonitorChecks | common/src/java/org/jppf/utils/concurrent/ConcurrentUtils.java:204-209 | waitForMonitor reports a null monitor before a negative wait time, and a negative wait time before a condition or a negative timeout |
| ConcurrentUtils.Overloads | common/src/java/org/jppf/utils/concurrent/ConcurrentUtils.java:58-60 | the overloads' interval of 1 never trips the interval checks, the interruptible overload starts like awaitCondition(condition, millis), and a timeout of 0 polls for Long.MAX_VALUE |
| ConcurrentUtils.NullConditionBeforeMillis | common/src/java/org/jppf/utils/concurrent/ConcurrentUtils.java:72-76 | a null condition returns at once even with a negative millis, while a present condition is rejected for it |
| LocalNodeWrapper.ReadyOpsAfter | server/src/java/org/jppf/server/nio/nodeserver/LocalNodeWrapperHandler.java:103-109 | a key set without OP_WRITE keeps the ready set; one with OP_WRITE becomes the ready set with OP_READ cleared, so the channel is write-ready and never readable at the same time |
| LocalNodeWrapper.ReadyOpsLastWriteWins | server/src/java/org/jppf/server/nio/nodeserver/LocalNodeWrapperHandler.java:103-109 | after two settings the second of which has OP_WRITE, the ready set depends only on the second |
| LocalNodeWrapper.ReadFromAsWrittenOutOfRange | server/src/java/org/jppf/server/nio/nodeserver/LocalNodeWrapperHandler.java:143-145 | the read as written goes out of range exactly when readPosition + 1 equals the number of locations, for example one location and nothing read |
| LocalNodeWrapper.ReadFromAsWritten | server/src/java/org/jppf/server/nio/nodeserver/LocalNodeWrapperHandler.java:143-145 | read() as written (Findings row 3): waits while readPosition >= size, then reads readPosition + 1; ReadFromAsWrittenOutOfRange exhibits the out-of-range read |
| LocalNodeWrapper.ReadFrom | server/src/java/org/jppf/server/nio/nodeserver/LocalNodeWrapperHandler.java:143-145 | the corrected read never goes out of range; it reads exactly when the location after readPosition exists, and reads that location |
| LocalNodeWrapper.ReadFromAgrees | server/src/java/org/jppf/server/nio/nodeserver/LocalNodeWrapperHandler.java:143-145 | the corrected read agrees with the code wherever the code stays in range, and waits where the code goes out of range |
| LocalNodeWrapper.ReadsInOrder | server/src/java/org/jppf/server/nio/nodeserver/LocalNodeWrapperHandler.java:144-145 | successive reads return locations 1, 2, … in order, never revisiting one and never reading location 0 |
| LocalNodeWrapper.Handler.constructor | server/src/java/org/jppf/server/nio/nodeserver/LocalNodeWrapperHandler.java:49-82 | a new handler has no interest, nothing ready, nothing read, no current location and a count of 0 |
| LocalNodeWrapper.Handler.SetKeyOps | server/src/java/org/jppf/server/nio/nodeserver/LocalNodeWrapperHandler.java:103-109 | the key set is replaced and the ready set follows ReadyOpsAfter |
| LocalNodeWrapper.Handler.SetReadyOps | server/src/java/org/jppf/server/nio/nodeserver/LocalNodeWrapperHandler.java:123-127 | only the ready set changes |
| LocalNodeWrapper.Handler.Write | server/src/java/org/jppf/server/nio/nodeserver/LocalNodeWrapperHandler.java:153-161 | one location holding the len bytes at offset is appended to the node message and becomes current, and the channel becomes read-ready |
| LocalNodeWrapper.Handler.WriteInt | server/src/java/org/jppf/server/nio/nodeserver/LocalNodeWrapperHandler.java:166-169 | only the current count is reset to 0; the value is not written |
| LocalNodeWrapper.Handler.ReadAsWritten | server/src/java/org/jppf/server/nio/nodeserver/LocalNodeWrapperHandler.java:139-148 | the channel becomes write-ready; the outcome is ReadFromAsWritten's, the read position moves on unless the read waits, and a location read is returned whole |
| LocalNodeWrapper.Handler.Read | server/src/java/org/jppf/server/nio/nodeserver/LocalNodeWrapperHandler.java:139-148 | as ReadAsWritten with the corrected wait: the outcome is ReadFrom's, so it never goes out of range |

## Left out

- The connection classes are not part of this model. A connection is a value with a name, a priority and an identity, and its status comes from a snapshot.
- ClientPools.AddConnection: the body of `addClientConnection`, which AbstractGenericClient.newConnection calls (AbstractGenericClient.java:236), is not among the source files, and nothing else in them fills `pools` or `allConnections`. The model assumes it appends the connection to `allConnections` and to the pool of its priority, and creates a missing pool as a new ClientPool with lastUsedIndex 0 (AbstractJPPFClient.java:327). AddConnectionSpec, AddConnectionOwned and Client.AddClientConnection rest on the same assumption.
- InsertDescending: the key order kept beside the TreeMap is the corrected comparator's (Findings row 1), not the order of `o2 - o1`, which misorders keys 2^31 or more apart and orders no TreeMap consistently.
- ClientPools.Round, RoundNullIffNoneActive, RoundFindsHighestActive, RoundPrunesFailed, RoundWithin, the ScanPools and Attempts lemmas, ClientPool.Scan, Client.ScanOne, Client.ScanInOrder, Client.ScanRound and Client.GetClientConnection: these model the corrected scan and key order of Findings rows 1-2. With the scan as written, a pass can skip an ACTIVE connection, so with oneAttempt it can return a lower-priority connection or null, and RoundFindsHighestActive does not hold for it.
- ClientPools.Client.GetClientConnection: `getClientConnection(false)` polls again forever while no connection is ACTIVE. The model bounds the polling by a finite sequence of status snapshots, one per round, and reports that it is still waiting when they run out.
- `statusChanged` in AbstractJPPFClient closes and resubmits on a FAILED status. It calls code this model does not include (job resubmission and connection close).
- `submit`, `submitNonBlocking`, `close` and `waitForPools` in the client classes are left out. They run jobs over network connections, or poll on the clock.
- ExecutionPolicy, DataProvider and `JPPFTask.compute()` are user code, so they are left out. The deprecated task-listener methods are modelled without contracts.
- GenericClient: the load balancer is taken to be always present. `isLocalExecutionEnabled` returns false when it is null, and the model does not cover that case.
- JPPFSchedule, TypedProperties, CollectionMap, the load balancer and ServerTaskBundleNode are not part of this model. They are replaced by values, or by logs of the calls made on them. A CollectionMap key is taken to disappear together with its last value.
- The statistics updates use double-valued averages and are left out.
- List sizes are required to stay below Integer.MAX_VALUE where the Java code uses an int index.
- Logging, thread starts, selector wake-ups and `Thread.sleep` are left out. `runWithRetry` counts its sleeps instead of performing them.
- The await helpers of ConcurrentUtils are modelled up to the start of their polling loops. The loops depend on the clock.
- `runWithRetryTimeout` stops on elapsed time, so it is left out.
- The thread-pool factory methods of ConcurrentUtils only build JDK executors, so they are left out.
- MultiplexerContext.Context.ReadOutBoundPort: the buffer's position and limit after `flip` are not modelled.
- `readMultiplexerMessage`, `writeMultiplexerMessage` and `handleException` of MultiplexerContext do channel I/O, so they are left out.
- LocalNodeWrapper.Handler.Read: `goToSleep` and `wakeUp` are left out. A read that would wait reports that it is blocked instead.
- LocalNodeWrapper.Handler.Write: ByteBufferInputSource and IOHelper are not part of this model. The offset and length are required to lie within the data.
- ProcessWrapper.Wrapper.HandleStream: an IOException ends reading just like the end of the stream. Other throwables are only printed by the source.
- Getters that return a field unchanged have no member of their own. Their fields are read directly.
- WaitingResults.Transition: only a throwable raised by `deserializeBundle` is modelled. A throwable raised inside `processResults` after the results were handed over (the statistics update, the load-balancer feedback or setNodeInfo, WaitingResultsState.java:114-126) is caught by the same handler, but that path is not modelled.
- AsyncNode.Deserialize: the header read from location 0 is returned but not stored back into the message (`message.setBundle`, AsyncNodeContext.java:180).
- AsyncNode.AsyncNodeContext.Close: resetting the two JMX connections, the thread that closes the old one, and the decrement of the NODES statistic (AsyncNodeContext.java:334-338) are not modelled.
- ManagementInfo.HashCode, ManagementInfo.CompareToOrder and the String.compareTo and String.hashCode they use (JavaLang.StringCompare, JavaLang.StringHash) work on Dafny characters, which are Unicode scalar values, whereas Java works on UTF-16 code units. They agree with Java only on hosts and ids made of characters in the Basic Multilingual Plane; a supplementary character is one code unit here and a surrogate pair in Java.
- Bundler.Counter.Inc: the instance counter wraps around at 32 bits, so bundler numbers are unique only below 2^31. The contract states the wrap.

## Findings

| source | as written | input that shows it | evidently intended | confidence | as-written member | corrected member |
|---|---|---|---|---|---|---|
| client/src/java/org/jppf/client/AbstractJPPFClient.java:366-369 | the descending comparator returns `o2 - o1` in 32-bit arithmetic | compare(1, Integer.MIN_VALUE) overflows to a positive result, so 1 sorts after MIN_VALUE, while 1 sorts before 0 and 0 before MIN_VALUE | a result negative when o1 > o2, zero when equal, positive when o1 < o2 | high, not executed | ClientPools.CompareDescendingAsWritten (ClientPools.CompareDescendingAsWrittenOverflows) | ClientPools.CompareDescending (ClientPools.CompareDescendingIsOrder) |
| client/src/java/org/jppf/client/AbstractJPPFClient.java:157-176 | the inner scan counts removed FAILED connections against the shrinking pool size, and moves the cursor back only when it falls off the end | pool [f, a] with the cursor on a, f FAILED and a ACTIVE: f is removed, the count reaches the new size 1, and a is never examined | every connection of the pool is examined once, so an ACTIVE connection is found whenever the pool has one | high, not executed | ClientPools.ScanPoolAsWritten (ClientPools.ScanPoolAsWrittenSkipsActive) | ClientPools.ScanPool (ClientPools.ScanPoolSpec) |
| server/src/java/org/jppf/server/nio/nodeserver/LocalNodeWrapperHandler.java:143-145 | `read` waits while readPosition >= size, then reads the location at readPosition + 1 | one location and readPosition 0: the wait ends and `get(1)` throws IndexOutOfBoundsException | wait until the location to be read exists | medium, not executed | LocalNodeWrapper.ReadFromAsWritten (LocalNodeWrapper.ReadFromAsWrittenOutOfRange) | LocalNodeWrapper.ReadFrom (LocalNodeWrapper.ReadFromAgrees) |
