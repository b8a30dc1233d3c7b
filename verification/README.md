# Verification of the network service

This directory models the parts of the network client whose correctness is hardest to see, and proves
what they are for. `dafny verify dfyconfig.toml` checks everything with Dafny 4.11.

Four components carry the weight.

* **The connection protocol.** `connect`, `disconnect` and `startup_recover` hold a guard; supervisor
  tasks run `recover` without it. `Lifecycle` is a state machine whose steps are the code between two
  await points, over the core process, the system proxy, the session, the monitor slot and the runtime
  record; every answer of the environment is a parameter of a step, and a run is any sequence of steps.
  `LifecycleInvariant` proves one inductive invariant, `LifecycleTheorems` draws the consequences,
  `LifecycleRegistry` follows the Windows proxy settings over whole runs, `LifecycleStartup` sets the startup task
  against the supervisor, `LifecycleErrors` follows a connect and a live switch to their end, `LifecycleEndings` a
  disconnect and a recovery, and `LifecycleScenarios` gives runs that end badly. `Route` and `RouteSafety` treat the proxy settings as single atomic writes that
  can be cut anywhere; `ConnState`, `Core` and `Monitor` are the parts the protocol is made of.
* **The routing index.** `DomainTrie` (an arena) and `BitTrie` (heap nodes) represent maps searched for the
  longest stored prefix (`PrefixMap`, `PathTree`). `Rules` defines, on the rule list alone, which rule
  ought to decide a flow. `RuleTables`, `RuleScan` and `RuleVerdict` prove that the index finds it, for
  every list and flow, and `RuleIndex`, `GeoIp` and `Engine` do so for the mutable structures themselves.
* **The DNS wire format.** `DnsWire` has the builder and the parser, `DnsNames` and `DnsAnswers` relate them
  to sections 4.1 and 4.1.4 of RFC 1035; `DnsCache` is the cache behind the resolver.
* **The IPC protocol.** `Varint`, `Proto` and `ProtoRoundTrip` are the hand-written codec, `Envelope` tells
  responses from events, `Scanning` decides when their loops end, `Framing` reads frames from arbitrary chunks,
  `Pairing`, `PairingInvariant` and `Client` match responses to calls.

`Traffic` and `NodeHealth` are smaller state machines; `Text`, `Slices` and `Prelude` are shared helpers.

## What the proofs found

Where code and comments differ, the code is followed. These are theorems, not remarks:

* Each recovery makes a single attempt: the restart counter is back at 0 whenever a recovery begins. The
  comments in `health/monitor.rs` and `lifecycle.rs` ("restart up to restart_max, then one smart-mode
  switch") describe a budget that never takes effect (`RecoveryIsASingleAttempt`).
* A failed disk write in `set_mode` strands the service in STARTING until it is restarted
  (`FailedModeWriteStrands`, `StrandedForever`). During a live switch it does so with the core gone and the proxy
  still set, and no disconnect can clear it (`FailedModeWriteStrandsSwitch`).
* An operation that ends in ERROR can leave the machine pointed at a dead port. A connect ends there exactly with one
  of three faults: no node, which leaves the proxy as it was; a core that does not come up, which leaves what the clear
  cannot write; and a set cut by a failing write, which has remembered nothing and so clears nothing (`WholeConnect`).
  A live switch ends there with the first two, keeping the snapshot only with the first (`WholeSwitch`), and a
  recovery that gives up leaves what its clear leaves (`GivingUp`). Each time the exact condition is proved.
* What a cut set leaves is not repaired by a disconnect, nor by any start after it (`CutSetIsNeverRepaired`). With a
  snapshot still held a disconnect clears it (`DisconnectAfterError`).
* `startup_recover` waits for the guard like any request, and then for the reaping of stale cores, while the supervisor
  goes on. It takes the proxy away from under a connection that is up, or coming back, and records STOPPED: with the
  restore setting off, with a node that is missing or disabled, when the record asks for the very connection that is
  up, and whatever it asks for while the connection is RECONNECTING (`LateStartupUndoesProxy` has the exact condition
  for everything supervisors may do before and after, `LateStartupIsReachable` and `InterleavedStartupIsReachable` the
  runs).
* A crash between setting the proxy and writing the runtime record of a first connect leaves a dead proxy
  that no number of later starts repairs, although the backup is on disk (`CrashWindowStrandsProxy`).
* A disconnect whose registry writes fail forgets the node all the same, so that the dead proxy it may leave is not
  repaired by any later start either (`CutDisconnectStrandsProxy`).
* A crash recovery whose registry write fails still drops the backup. It leaves the machine pointed at a dead port
  exactly under `LeavesDeadProxy` (`RecoveryLeavesDeadProxy`): when nothing can be written, when a user's proxy is
  cut after the first write, and when a disabled baseline that names our own endpoint is switched on but not off
  again. A second recovery repairs it (`FailedRecoveryNeedsASecondStart`).
* Set and clear restore both strings exactly, except for an orphaned endpoint of our own and for a disabled
  baseline whose strings are both empty (`CycleRestoresExactly`).
* A country file that lists private space takes it away from PRIVATE (`PrivateUnlessOverridden`).
* `update_rule` does not pin the priority again (`PriorityStaysPinned`), and `add_rule` accepts an identifier that
  exists (`IdsStayUnique`).
* A suffix rule of nothing but dots matches every name (`DotsCoverEveryName`).
* A response that announces more records than it has is answered with those it has if it ends inside the next record,
  after its name, and refused as a whole if it ends between two records (`ShortResponse`).
* Questions read back exactly for labels below 192 octets, three times the limit of RFC 1035; longer ones are
  misread (`QueryRoundTrip`).
* A response with code 0 and an empty message would be taken for an event; the server sends none
  (`ResponseIsRecognised`, `ReplyIsRecognised`).
* Ending a session drops what was counted since the last flush from the samples (`EndSession`); a failed insert
  drops its delta (`FlushOnce`).
* A length with bit 31 set moves the client's cursor backwards. On arbitrary bytes the general condition for a loop not
  to end is about its trace: the cursor is somewhere twice (`FindEndsExactly`, `ClassifierEndsExactly`). In the bytes,
  only such a length can do it, and a field whose length leads back to its own tag does, for the field readers
  (`OnlyNegativeLengthsLoop`, `BackwardLoops`) and for the classifier, which meets every frame first and has its own
  32-bit lengths (`OnlyNegativeLengthsLoopHere`, `BackwardLoopsHere`). No frame of the server does.
* The poller is not told of a session that ends and one that begins between two of its ticks: the second then starts
  from the last reading of the first (`NewSessionRecords`).
* The comment on `select_best` promises that disabled nodes are filtered. Neither it nor the second listing of
  `smart_select` does so: `DisabledIsSelectedExactly` says when a disabled node comes out, and
  `MisselectionIsPossible` when one can. A current node that is gone is kept while all scores are low
  (`SelectedIsListed`).

## Model

| member | source | states |
|---|---|---|
| LifecycleTheorems.EveryWriteIsAnEdge | service/network-service/src/app/lifecycle.rs:105-339 | In every interleaving of guarded connect, disconnect and startup with the unguarded recover, each state write, the unchecked `fail` included, is an edge of the transition table, and no `transition(..)?` or `set_context(..)?` after the entry checks is refused |
| Lifecycle.HistoryIsTrue | service/network-service/src/app/state.rs:152-197 | What that rests on: a write keeps the history legal exactly when it is an edge or keeps the state, and a checked write that is not is refused and changes nothing |
| LifecycleTheorems.GuardFreeStates | service/network-service/src/app/lifecycle.rs:105-246 | With the guard free the state is STOPPED, CONNECTED, RECONNECTING or ERROR; STARTING only after a failed disk write in `set_mode` |
| LifecycleTheorems.SupervisorCount | service/network-service/src/app/lifecycle.rs:419-436 | Never more than one supervisor; none in STARTING, CONNECTING or STOPPED; with the guard free, one exactly in CONNECTED and RECONNECTING |
| LifecycleTheorems.CoreIsNotShared | service/network-service/src/app/lifecycle.rs:279-339 | A living supervisor and a guard holder are never inside the core adapter together |
| LifecycleTheorems.AwaitedSupervisorMakesProgress | service/network-service/src/app/lifecycle.rs:431-436 | While `stop_monitor` waits, every step of the awaited supervisor brings it nearer to its end, whatever the environment answers; it cannot start a recovery or return to CONNECTED |
| LifecycleTheorems.StopMonitorIsNotBlocked | service/network-service/src/app/lifecycle.rs:431-436 | At most nine supervisor steps after `stop_monitor` starts waiting the guard holder can go on: no wait cycle |
| LifecycleTheorems.RestingResources | service/network-service/src/app/lifecycle.rs:248-262 | Guard free: CONNECTED holds core child (status Running), session, active node and proxy snapshot with restart count 0; STOPPED holds none of them; ERROR none but the snapshot after an aborted live switch or a failed registry write |
| LifecycleTheorems.NoOrphanCore | service/network-service/src/proxy/manager.rs:197-331 | Every live core process is held by the adapter or stems from an earlier instance; in STOPPED and ERROR none of this instance lives |
| LifecycleTheorems.AbortedSwitchKeepsSnapshot | service/network-service/src/app/lifecycle.rs:122-146 | The segment of a live switch that looks for its node keeps the snapshot; it ends in ERROR, with the proxy as it was, if and only if the node is missing or disabled |
| LifecycleErrors.WholeConnect | service/network-service/src/app/lifecycle.rs:97-221 | A connect from rest, for all answers of the environment: it ends in ERROR if and only if there is no node, the core does not come up or the set is cut, and for each fault the exact condition for a dead proxy; otherwise in CONNECTED to the node and mode asked for. What is held, and the record, are given for each end |
| LifecycleErrors.WholeSwitch | service/network-service/src/app/lifecycle.rs:105-221 | A live switch likewise, whatever the supervisor does until it is gone; the snapshot is kept if and only if there was no node |
| LifecycleErrors.OthersOnlyWatch | service/network-service/src/app/lifecycle.rs:97-262 | Between the segments of a dial no step of anyone else has an effect but the death of processes, so that those runs are all runs |
| LifecycleErrors.GivingUp | service/network-service/src/app/lifecycle.rs:318-339 | A recovery that gives up, with any steps of others in between, ends in ERROR without a core and leaves a dead proxy exactly as its clear does |
| LifecycleErrors.CutSetIsNeverRepaired | service/network-service/src/app/lifecycle.rs:175-262 | Exact condition for a connect whose set is cut to leave a dead proxy that neither the disconnect after it nor any later start repairs |
| LifecycleErrors.DeadProxyOutlivesDisconnect | service/network-service/src/app/lifecycle.rs:223-256 | Exact condition for a dead proxy to outlive a recorded disconnect in ERROR and any number of starts |
| LifecycleEndings.WholeDisconnect | service/network-service/src/app/lifecycle.rs:223-256 | A disconnect in CONNECTED or RECONNECTING, whatever its supervisor still does until it is gone: STOPPED, nothing held, no task, the record as stated; the settings are back if the one clear succeeds, and the exact condition for a dead proxy |
| LifecycleEndings.DisconnectIsRefusedExactly | service/network-service/src/app/lifecycle.rs:223-233 | A disconnect changes nothing exactly in the states other than CONNECTED, RECONNECTING and ERROR |
| LifecycleEndings.FinalDisconnectRestores | service/network-service/src/route/manager.rs:131-187 | Over any run of connects, switches and recoveries and a final disconnect without a failing write the registry is the one before the first connect, or that one after a single cycle |
| LifecycleEndings.WholeRecovery | service/network-service/src/app/lifecycle.rs:279-339 | A recovery with any steps of others in between: it brings the connection back, on the same node or on the one smart selection offers, if and only if a restart is allowed or there is such a node and the core comes up; otherwise everything is given up. What is held, and the record, are given for both ends |
| LifecycleEndings.RecoveryBegins | service/network-service/src/app/lifecycle.rs:279-296 | It begins, in RECONNECTING, with the health check that raises the alarm |
| LifecycleTheorems.RecoveryIsASingleAttempt | service/network-service/src/app/lifecycle.rs:286-320 | The restart counter is 0 outside a recovery and 1 inside: smart switching is reached only with `restart_max` 0, and with a positive one only the same node is started |
| LifecycleTheorems.RecoveryNeverRetries | service/network-service/src/app/lifecycle.rs:279-339 | No step inside a recovery returns to an earlier stage, so each recovery makes at most one core start |
| LifecycleTheorems.RecoveryDuringDisconnect | service/network-service/src/app/lifecycle.rs:268-276 | A recovery that succeeds while a disconnect waits changes no state: STOPPING stays, and the supervisor ends |
| LifecycleTheorems.FailedModeWriteStrands | service/network-service/src/app/lifecycle.rs:149 | A connect from rest is left in STARTING if and only if its node is found enabled and the disk write of `set_mode` fails |
| LifecycleTheorems.FailedModeWriteStrandsSwitch | service/network-service/src/app/lifecycle.rs:111-149 | A live switch is left in STARTING if and only if its node is found enabled and that write fails; the core is gone then and the proxy still set |
| LifecycleTheorems.StrandedForever | service/network-service/src/app/lifecycle.rs:105-130 | From there no run of any steps leaves STARTING, nor, once the startup task is done, touches the proxy |
| LifecycleTheorems.ConnectIsRefusedExactly | service/network-service/src/app/lifecycle.rs:105-146 | A connect changes nothing at all exactly in RECONNECTING or STARTING, for the target that is up, and for an unusable node in ERROR whose record would read the same |
| LifecycleInvariant.BootIsSound | service/network-service/src/app/lifecycle.rs:51-79 | A freshly started service satisfies the inductive invariant over states, tasks and resources |
| LifecycleInvariant.EnterIsSound | service/network-service/src/app/lifecycle.rs:105-130 | The code of `connect_locked` up to its first await keeps the invariant |
| LifecycleInvariant.DialIsSound | service/network-service/src/app/lifecycle.rs:127-160 | The code from STARTING to the start of the core keeps the invariant, aborts included |
| LifecycleInvariant.HolderIsSound | service/network-service/src/app/lifecycle.rs:105-262 | So does every segment between two awaits of the guard holder |
| LifecycleInvariant.TaskIsSound | service/network-service/src/app/lifecycle.rs:279-339 | So does every segment of a supervisor, in `tick_phase` and in `recover` |
| LifecycleInvariant.StartupIsSound | service/network-service/src/app/lifecycle.rs:347-417 | So does `startup_recover`, at whatever time it gets the guard |
| LifecycleInvariant.RunIsSound | service/network-service/src/app/lifecycle.rs:105-436 | The invariant holds after any sequence of steps of all actors, process deaths included |
| Lifecycle.ClassifyIsFaithful | service/network-service/src/app/lifecycle.rs:111-127 | The model's classes of mode text lose nothing `RouteMode::parse` or the same-target test can see |
| LifecycleRegistry.OnlySetAndClearWrite | service/network-service/src/app/lifecycle.rs:170-184 | After startup the registry, the snapshot and the backup change only where the proxy is set or cleared |
| LifecycleRegistry.RunsRestoreTheRegistry | service/network-service/src/route/manager.rs:131-187 | Over any run of connects, switches, recoveries and disconnects without registry faults, the registry without a snapshot is the one before the first connect, or that one after a single set-and-clear; with a snapshot it is ours |
| LifecycleRegistry.RunsStayClean | service/network-service/src/route/manager.rs:66-158 | Over every run, startup and failed writes included, neither snapshot nor backup holds our own endpoint as an enabled proxy, and the next instance starts that way too |
| LifecycleRegistry.StartupClearsDeadProxy | service/network-service/src/app/lifecycle.rs:347-417 | Every startup, in whatever state it finds the connection: it leaves a dead proxy exactly when there was one and the record names no node or its connect goes ahead, or when the crash recovery's failing writes leave one |
| LifecycleRegistry.FailedBootConnectLeavesDeadProxy | service/network-service/src/app/lifecycle.rs:376-417 | A boot-time connect that went ahead and fails later ends in the same crash recovery, with the same condition; one that succeeds ends by asserting the proxy |
| LifecycleScenarios.CrashWindowStrandsProxy | service/network-service/src/app/lifecycle.rs:355-358 | From any first start there is a reachable crash after which any number of startups return early and leave the machine pointed at a dead port, the backup unused |
| LifecycleScenarios.CutDisconnectStrandsProxy | service/network-service/src/app/lifecycle.rs:223-256 | Exact condition, for every snapshot and every failing write, for a recorded disconnect to leave a dead proxy, which no number of starts then repairs |
| LifecycleStartup.LateStartupUndoesProxy | service/network-service/src/app/lifecycle.rs:347-417 | For all steps of supervisors while the startup waits and afterwards: a connection that is up in the end has lost its proxy exactly when, at the end of the wait, the record named a node, no switch to another target followed and the registry writes got far enough; then STOPPED is recorded |
| LifecycleStartup.StartupReaps | service/network-service/src/app/lifecycle.rs:353 | The cores a crash left running are those the next instance finds; its startup kills all of them unless the reaping fails |
| LifecycleStartup.LateStartupIsReachable | service/network-service/src/main.rs:170-181 | From every first start a run reaches such a startup, which undoes the proxy whatever the restore setting and the node store say |
| LifecycleStartup.InterleavedStartupIsReachable | service/network-service/src/app/lifecycle.rs:350-395 | A run in which another target would have been dialled, had the supervisor not gone to RECONNECTING during the wait: the proxy is undone and the recovery ends in CONNECTED |
| LifecycleScenarios.DisconnectAfterError | service/network-service/src/app/lifecycle.rs:223-256 | A disconnect in ERROR ends in STOPPED without a snapshot; one held so far is restored if all writes succeed, without one nothing is touched, and a dead proxy is left exactly as the clear leaves one |
| LifecycleScenarios.DialConnects | service/network-service/src/app/lifecycle.rs:105-221 | A connect from rest with a cooperating environment reaches CONNECTED with our registry values, the sanitised snapshot in memory and on disk |
| ConnState.StateStore.Transition | service/network-service/src/app/state.rs:152-168 | A bare transition succeeds exactly on table edges and on the same state, keeps the context, clears errors only on entry to CONNECTED or READY |
| ConnState.StateStore.SetContext | service/network-service/src/app/state.rs:171-183 | The same check; on success binds node and mode, otherwise changes nothing |
| ConnState.StateStore.Fail | service/network-service/src/app/state.rs:191-197 | The unchecked write: takes any state; the history stays legal exactly when the write is an edge or keeps the state |
| ConnState.EdgesInto | service/network-service/src/app/state.rs:69-95 | The table by targets: the states from which each one can be entered |
| ConnState.StartupStatesAreDead | service/network-service/src/app/state.rs:69-95 | INITIALIZING and READY are never entered on any legal path from STOPPED |
| ConnState.ConnectedAfterDialling | service/network-service/src/app/state.rs:69-95 | No legal path leads from STOPPED to CONNECTED or RECONNECTING but through STARTING and then CONNECTING |
| Core.StartLeavesNoOrphan | service/network-service/src/proxy/manager.rs:197-320 | A start ends with exactly one more held process, or on failure with none more and no orphan |
| Core.ExternalCore.StartCore | service/network-service/src/proxy/manager.rs:197-320 | The method's whole new state, and on failure that no process it spawned survives |
| Core.ExternalCore.StopCore | service/network-service/src/proxy/manager.rs:321-331 | Afterwards no child is held and none lives |
| Core.ExternalCore.Restart | service/network-service/src/proxy/manager.rs:333-338 | Succeeds exactly when the spawn and the port answer; then one fresh child lives, else none |
| Core.ExternalCore.HealthCheck | service/network-service/src/proxy/manager.rs:360-384 | Anything but LocalDead means a child is held |
| Monitor.TickPhase | service/network-service/src/health/monitor.rs:47-93 | The loop ends exactly where the declarative rule says: first LocalDead, third UplinkDead since the last Healthy, cancellation or a state other than CONNECTED |
| Monitor.CountIsAlarm | service/network-service/src/health/monitor.rs:47-93 | Counting strikes check by check calls for a recovery exactly when the declarative rule raises an alarm |
| LifecycleTheorems.SupervisorFollowsTickPhase | service/network-service/src/health/monitor.rs:31-93 | A supervisor of the state machine, left to itself in CONNECTED, begins a recovery exactly at the first alarm of that rule and ticks on until then |
| Monitor.PhaseEndIsUnique | service/network-service/src/health/monitor.rs:47-93 | That rule names one end at most |
| Monitor.StrikesAreForgiven | service/network-service/src/health/monitor.rs:66-82 | Without a dead core and without three uplink failures in a row the phase never asks for recovery |
| Route.OwnSpecIsReferenced | service/network-service/src/route/manager.rs:24-31 | What the service writes is recognised as its own endpoint |
| Route.EndpointsDoNotCollide | service/network-service/src/route/manager.rs:24-31 | Bare endpoints match exactly when their ports are equal; no prefix collision |
| Route.OwnSpecTargets | service/network-service/src/route/manager.rs:147 | Read scheme by scheme, what the service writes sends http and https to its endpoint and names nothing else |
| Route.ReferencesMeans | service/network-service/src/route/manager.rs:24-31 | A string references our endpoint exactly when it sends http, https, socks or everything there |
| Route.EndpointMeans | service/network-service/src/route/manager.rs:102 | Our endpoint is the loopback address and the port in decimal |
| Route.RouteManager.SetSystemProxy | service/network-service/src/route/manager.rs:131-158 | The method's outcome under any failing write is the specified prefix of its writes |
| Route.RouteManager.ClearSystemProxy | service/network-service/src/route/manager.rs:162-187 | Likewise for clearing |
| Route.RouteManager.PrimeFromBackup | service/network-service/src/route/manager.rs:71-78 | Likewise for priming |
| Route.RouteManager.RestoreAfterCrash | service/network-service/src/route/manager.rs:83-113 | Likewise for crash recovery |
| Route.RouteManager.EnsureProxyApplied | service/network-service/src/route/manager.rs:118-127 | Likewise for re-assertion |
| RouteSafety.TrafficIsSentHere | service/network-service/src/route/manager.rs:118-158 | After a set or a re-assertion without a failing write the proxy is on, and http and https traffic and no other is sent to our endpoint |
| RouteSafety.CycleRestoresExactly | service/network-service/src/route/manager.rs:131-187 | After set and clear the proxy is on as before if and only if the baseline was not our own enabled endpoint; both strings come back verbatim if and only if the baseline was neither an orphan of ours with other strings nor disabled with both strings empty |
| RouteSafety.CycleIsIdempotent | service/network-service/src/route/manager.rs:131-187 | A second cycle changes nothing more |
| RouteSafety.SnapshotIsNeverOverwritten | service/network-service/src/route/manager.rs:131-135 | No sequence of further set, ensure and prime calls changes the snapshot |
| RouteSafety.SnapshotsStayClean | service/network-service/src/route/manager.rs:66-187 | Under any history of operations cut after any of their atomic writes, with crashes and foreign registry edits, neither snapshot nor backup holds our endpoint enabled |
| RouteSafety.RecoveryIsSafeAndRepeatable | service/network-service/src/route/manager.rs:83-113 | After any such history one completed crash recovery leaves no reference to our port, and a recovery that itself crashes and reruns ends in the same registry |
| RouteSafety.RecoveryLeavesDeadProxy | service/network-service/src/route/manager.rs:83-113 | Exact condition, for every backup and every failing write, for a crash recovery to end with our endpoint still enabled; the backup is gone in any case |
| RouteSafety.ClearLeavesDeadProxyExactly | service/network-service/src/route/manager.rs:160-187 | The same condition for a clear, on its snapshot; the backup goes only if all writes succeed |
| RouteSafety.DeadProxyInstances | service/network-service/src/route/manager.rs:83-100 | After a crash while connected: no write, a user's proxy cut after one write, and a baseline that names us cut before the last, leave it enabled |
| RouteSafety.FailedRecoveryNeedsASecondStart | service/network-service/src/route/manager.rs:83-113 | After a recovery cut anywhere, a second one leaves a dead proxy only if the first did and not one registry write succeeds |
| RouteSafety.CrashAndReconnectRestores | service/network-service/src/route/manager.rs:71-78 | Crash while connected, any registry found afterwards, automatic reconnect, disconnect: the exact condition under which the registry of an uninterrupted cycle comes back |
| DomainTrie.DomainTrie.Insert | service/network-service/src/routing/matcher.rs:56-80 | Updates exactly one key of the map from label lists to values the arena stands for |
| DomainTrie.DomainTrie.Child | service/network-service/src/routing/matcher.rs:65-79 | Follows or grows one edge; the represented map does not change, every node keeps its one path and edges lead to later nodes |
| DomainTrie.DomainTrie.Lookup | service/network-service/src/routing/matcher.rs:83-108 | Returns the value at the longest stored label suffix |
| DomainLabels.LabelsMeanWithin | service/network-service/src/routing/matcher.rs:56-63 | The trie's label test is the textual one: equal, or ending in a dot and the suffix, in any case |
| DomainLabels.DotsCoverEveryName | service/network-service/src/routing/matcher.rs:56-108 | A suffix matches every name if and only if it consists of nothing but dots |
| BitTrie.BitTrie.Grow | service/network-service/src/routing/matcher.rs:139-145 | A fresh node below an existing one keeps every path and the represented map |
| BitTrie.BitTrie.Insert | service/network-service/src/routing/matcher.rs:139-146 | Updates exactly one prefix of the represented map |
| BitTrie.BitTrie.Lookup | service/network-service/src/routing/matcher.rs:148-163 | Longest-prefix match on that map |
| PrefixMap.LongestIsLongest | service/network-service/src/routing/matcher.rs:148-163 | A lookup answers with a value if and only if that value is stored at a prefix longer than all other stored prefixes |
| PrefixMap.LookupIsDecided | service/network-service/src/routing/matcher.rs:139-163 | For any list of inserts the answer is the last value written at the longest written prefix |
| Address.KeyIsBlock | service/network-service/src/routing/matcher.rs:166-178 | Bit prefixes agree exactly when the addresses agree after integer division by 2^(W-p): CIDR membership, host bits ignored |
| Address.BitsDenoteNumber | service/network-service/src/routing/matcher.rs:166-178 | The bits of an address, most significant first, are those of its octets as one number |
| RuleIndex.IpIndex.InsertCidr | service/network-service/src/routing/matcher.rs:199-226 | Fails exactly on unparsable blocks (a bare address is one); otherwise writes one prefix of one family |
| RuleIndex.RuleIndex.Build | service/network-service/src/routing/matcher.rs:252-309 | Errs exactly when some enabled rule cannot be indexed; otherwise the heap index stands for the specified tables |
| RuleIndex.RuleIndex.MatchDomain | service/network-service/src/routing/matcher.rs:318-338 | The fold over exact, suffix, keyword and regex answers, in that order, first highest priority |
| RuleIndex.RuleIndex.MatchPort | service/network-service/src/routing/matcher.rs:355-363 | An exact port beats ranges, and the first range that contains the port wins |
| RuleTables.BuildSucceeds | service/network-service/src/routing/matcher.rs:252-309 | A build succeeds if and only if every enabled rule is buildable |
| RuleScan.TablesAgree | service/network-service/src/routing/matcher.rs:311-367 | For every rule list, kind and flow the tables answer with exactly the rules a scan of the list picks |
| RuleScan.PicksAreCandidates | service/network-service/src/routing/matcher.rs:252-309 | The scan picks exactly the matching rules that no other rule shadows: last writer, longest suffix or prefix, exact port, first range |
| RuleScan.PickDominates | service/network-service/src/routing/matcher.rs:252-309 | Of a kind with one answer, the pick shadows every other matching rule |
| RuleVerdict.BestWins | service/network-service/src/routing/engine.rs:164-221 | Folding all answers finds the rule that wins by the declarative definition, and none exactly when no enabled rule matches |
| RuleVerdict.LadderFollowsStages | service/network-service/src/routing/rule.rs:56-93 | Without explicit priorities the winner is the candidate of the earliest kind, then of the earliest position |
| Rules.AtMostOneWins | service/network-service/src/routing/engine.rs:164-185 | The declarative winner is unique |
| Rules.PriorityAgainstLadder | service/network-service/src/routing/rule.rs:47-62 | A rule with a priority comes before one without exactly beyond 900, 800, 700 or 600 by stage |
| Rules.PortsMean | service/network-service/src/routing/matcher.rs:280-297 | Single ports and ranges up to 65535 in decimal |
| Rules.CidrMeans | service/network-service/src/routing/matcher.rs:199-230 | An address, a slash and a prefix its family admits; without a slash nothing |
| Rules.BaseNameMeans | service/network-service/src/routing/matcher.rs:344-349 | The lower-case name after the last separator of either kind |
| Engine.RoutingEngine.Decide | service/network-service/src/routing/engine.rs:164-247 | The decision is the one the listed rules call for: the winner's action and identifier with its stage as reason; for a flow that no enabled rule matches, what the mode says, spelled out for each |
| Engine.UnmatchedTraffic | service/network-service/src/routing/engine.rs:216-244 | What happens to a flow that no enabled rule matches, for each mode: action, reason, and no rule; in smart mode direct if and only if the country is PRIVATE or the home country in any case |
| Engine.PrivateTraffic | service/network-service/src/routing/engine.rs:227-240 | In smart mode an unmatched private address is never proxied unless a country file lists a block around it at least as long and that country is not at home |
| Engine.UserRulesComeFirst | service/network-service/src/routing/engine.rs:117-129 | A rule added by a user has priority 1000 and an identifier, and no rule without a priority of its own wins over it |
| Engine.VerdictIsUnique | service/network-service/src/routing/engine.rs:164-247 | At most one decision is called for |
| Engine.RoutingEngine.Load | service/network-service/src/routing/engine.rs:52-65 | Starts if and only if the stored rules build, and then with the index of exactly those rules and the private and loaded countries |
| Engine.RoutingEngine.Commit | service/network-service/src/routing/engine.rs:152-160 | Publishes list, index and file together, or changes nothing on a build or disk error |
| Engine.RoutingEngine.AddRule | service/network-service/src/routing/engine.rs:117-129 | Appends the rule pinned to priority 1000, or fails and changes nothing |
| Engine.RoutingEngine.UpdateRule | service/network-service/src/routing/engine.rs:131-139 | Replaces the first rule of that identifier as given, priority included, or fails and changes nothing |
| Engine.RoutingEngine.DeleteRule | service/network-service/src/routing/engine.rs:141-150 | Removes every rule of that identifier, or fails and changes nothing |
| Engine.DeleteAlwaysBuilds | service/network-service/src/routing/engine.rs:141-150 | A delete fails only when the disk does, and deleting an unknown identifier succeeds |
| Engine.DeletedIsNeverReturned | service/network-service/src/routing/engine.rs:117-221 | After a delete no decision ever names the identifier again, whatever edits follow that do not add it anew |
| Engine.IdsStayUnique | service/network-service/src/routing/engine.rs:117-150 | Distinct identifiers stay distinct under every edit but an addition under an identifier that exists |
| Engine.PriorityStaysPinned | service/network-service/src/routing/engine.rs:117-150 | The user priority of all rules is kept by every edit but an update that gives another |
| Engine.PublishedBuilds | service/network-service/src/routing/engine.rs:117-160 | After any sequence of successful and failed edits the published list builds |
| GeoIp.CountryIsLongestBlock | service/network-service/src/routing/geoip.rs:83-113 | A country is the one of the longest listed block around the address, the last such listed; none exactly when no block covers it |
| GeoIp.PrivateRanges | service/network-service/src/routing/geoip.rs:15-54 | Without country files exactly the built-in ranges have a country, PRIVATE |
| GeoIp.PrivateMeans | service/network-service/src/routing/geoip.rs:18-29 | Which addresses are private, by their octets |
| GeoIp.LineMeans | service/network-service/src/routing/geoip.rs:83-106 | A line of a country file; without a slash an IPv6 address alone |
| GeoIp.PrivateUnlessOverridden | service/network-service/src/routing/geoip.rs:41-81 | A private address stays PRIVATE if and only if no country file lists a block around it at least as long as the built-in ones |
| GeoIp.GeoTable.LoadDir | service/network-service/src/routing/geoip.rs:58-81 | Every file's parsable lines are entered under its upper-cased name, in order; nothing else changes |
| GeoIp.GeoTable.InsertCidr | service/network-service/src/routing/geoip.rs:83-106 | One entry, or none when the line does not parse |
| GeoIp.GeoTable.Country | service/network-service/src/routing/geoip.rs:108-113 | Answers as the entries so far call for |
| DnsWire.BuildQuery | service/network-service/src/dns/wire.rs:18-35 | Writes header, labels, terminator, type and class IN |
| DnsWire.ReadName | service/network-service/src/dns/wire.rs:37-83 | On every buffer the loop ends and equals the recursive expansion cut at sixteen pointers; the next offset is past the start and within the buffer |
| DnsWire.ParseResponse | service/network-service/src/dns/wire.rs:85-143 | Equals the recursive reading of questions and records: a bad name fails the whole, a cut record ends the list |
| DnsNames.ExpandIsDenotation | service/network-service/src/dns/wire.rs:37-83 | A name is read as labels if and only if it denotes them, in the unlimited sense of section 4.1.4 of RFC 1035, through at most sixteen pointers |
| DnsNames.PointerLoopsAreRefused | service/network-service/src/dns/wire.rs:37-83 | A name that runs into a loop of pointers of any length, labels in between or not, is never read |
| DnsNames.NameIsBounded | service/network-service/src/dns/wire.rs:37-83 | A name has at most seventeen times the buffer's octets |
| DnsNames.QueryRoundTrip | service/network-service/src/dns/wire.rs:18-83 | The name of a built question reads back, leaving exactly type and class, if and only if every label is shorter than 192 octets |
| DnsNames.QueryFields | service/network-service/src/dns/wire.rs:18-35 | Identifier, recursion desired, one question, type and class IN of a built question, which is never taken for an answer |
| DnsNames.OnlyResponsesAreRead | service/network-service/src/dns/wire.rs:85-93 | A message without the response bit, or without a header, is refused |
| DnsNames.LabelsJoinToName | service/network-service/src/dns/wire.rs:27-30 | Joined with dots the labels are the name they came from |
| DnsAnswers.ResponseRoundTrip | service/network-service/src/dns/wire.rs:85-143 | Any list of records is read back exactly, whatever follows the answers, if and only if every pointer in an owner name points, anywhere in the message, to the name it is meant to, within the limit on jumps |
| DnsAnswers.WrittenNamesAreTargets | service/network-service/src/dns/wire.rs:37-83 | From each label on, a name written in the question or as an owner, compressed itself or not, denotes the rest of that name |
| DnsAnswers.CompressedResponseReads | service/network-service/src/dns/wire.rs:85-143 | Every response compressed into its question and its earlier owner names, in chains of at most sixteen pointers, is read as exactly its answers |
| DnsAnswers.AddressesAreRead | service/network-service/src/dns/wire.rs:85-143 | From addresses to addresses: any answers come back with their names, times to live and addresses, octet for octet; records of another type or length without an address |
| DnsAnswers.ShortResponse | service/network-service/src/dns/wire.rs:103-121 | A response that ends inside an announced record yields those before it if the name of that record is there, and none otherwise |
| DnsAnswers.AtMostAncount | service/network-service/src/dns/wire.rs:94-103 | On any input at most ANCOUNT records |
| DnsAnswers.CutMessageInventsNothing | service/network-service/src/dns/wire.rs:103-121 | A message cut anywhere yields no answer or the first records of the whole message, even of one that is refused for a name further on |
| DnsCache.DnsCache.Get | service/network-service/src/dns/cache.rs:28-39 | A hit is the last put under the case-folded name, not flushed since, strictly before it expires; while the cache has never been full every such put is a hit |
| DnsCache.DnsCache.Put | service/network-service/src/dns/cache.rs:41-68 | Never more than max(max_size, 16) entries; a full cache keeps its live entries, and when those fill it loses one that expires first; the time to live is clamped to 10 to 600 seconds |
| DnsCache.LifetimeIsClamped | service/network-service/src/dns/cache.rs:60-66 | Answers are kept for 10 to 600 seconds, and between those for as long as they say |
| DnsCache.EvictionIsMild | service/network-service/src/dns/cache.rs:45-58 | Making room takes expired entries and at most one other, which expires first |
| DnsCache.DnsCache.FlushAll | service/network-service/src/dns/cache.rs:70-72 | Nothing put before can be hit again |
| Varint.Write | client/WindowsClient/Ipc/ProtoCodec.cs:47-55 | Writes the base-128 form of a 64-bit value |
| Varint.Read | client/WindowsClient/Ipc/ProtoCodec.cs:169-181 | Reads as the recursive definition with C#'s shift counts, for 64 and for 32 bits |
| Varint.RoundTrip | client/WindowsClient/Ipc/ProtoCodec.cs:47-55 | Write then read is the identity on all 64-bit values, wherever the bytes stand |
| Varint.RoundTrip32 | client/WindowsClient/Ipc/NetworkServiceClient.cs:195-225 | The 32-bit length reader agrees below 2^32 |
| Varint.OrMeans | client/WindowsClient/Ipc/ProtoCodec.cs:169-181 | The bitwise or of the readers, bit by bit |
| Proto.BuildRequest | client/WindowsClient/Ipc/ProtoCodec.cs:12-20 | Writes the four request fields; empty strings are left out, an empty payload is not |
| ProtoRoundTrip.RequestBytes | client/WindowsClient/Ipc/ProtoCodec.cs:12-45 | Small requests byte by byte, under the tags of proto3 |
| Proto.ProtoReader.Seek | client/WindowsClient/Ipc/ProtoCodec.cs:93-103 | The scan shared by the field readers gives what its rounds lead to, backward steps included, whenever they end |
| Proto.FindEndsExactly | client/WindowsClient/Ipc/ProtoCodec.cs:93-209 | On arbitrary bytes the scan for a field ends if and only if its cursor is nowhere twice |
| ProtoRoundTrip.OnlyNegativeLengthsLoop | client/WindowsClient/Ipc/ProtoCodec.cs:191-208 | Only a length that counts as negative can keep it from ending |
| ProtoRoundTrip.BackwardLoops | client/WindowsClient/Ipc/ProtoCodec.cs:191-208 | A field whose length leads back to its own tag keeps it from ending, whatever follows |
| Scanning.EndsInTime | client/WindowsClient/Ipc/ProtoCodec.cs:93-209 | A loop over a cursor ends if and only if the cursor is nowhere twice, and then within one round more than the buffer has bytes |
| Proto.ProtoReader.ReadBytesField | client/WindowsClient/Ipc/ProtoCodec.cs:93-103 | The first length-delimited field of that number, or none, or an exception, whenever the scan ends |
| Proto.ProtoReader.ReadUInt64Field | client/WindowsClient/Ipc/ProtoCodec.cs:129-139 | The first varint field of that number, 0 when absent, or an exception, whenever the scan ends |
| ProtoRoundTrip.SkipByType | client/WindowsClient/Ipc/ProtoCodec.cs:191-208 | What the readers pass over by wire type, with 1, 2 and 5 and the unknown types spelled out |
| Envelope.SkipFieldByType | client/WindowsClient/Ipc/NetworkServiceClient.cs:200-227 | What the classifier passes over: of unknown types nothing |
| ProtoRoundTrip.FieldZeroEnds | client/WindowsClient/Ipc/ProtoCodec.cs:159-167 | Field number 0 ends every search |
| ProtoRoundTrip.BytesRecovered | client/WindowsClient/Ipc/ProtoCodec.cs:93-103 | For any list of well-formed fields the reader recovers the first match past all others |
| ProtoRoundTrip.NumberRecovered | client/WindowsClient/Ipc/ProtoCodec.cs:105-139 | Likewise for numbers |
| ProtoRoundTrip.RequestRoundTrip | client/WindowsClient/Ipc/ProtoCodec.cs:12-20 | Every request's four fields come back as they were put in |
| Envelope.TryDecodeResponse | client/WindowsClient/Ipc/NetworkServiceClient.cs:150-179 | The classifier loop with its own tag and skip code, and then the readings of code, message and payload, give what their rounds lead to, whenever they end |
| Envelope.ClassifierEndsExactly | client/WindowsClient/Ipc/NetworkServiceClient.cs:159-227 | On arbitrary bytes the classifier ends if and only if its cursor is nowhere twice |
| Envelope.OnlyNegativeLengthsLoopHere | client/WindowsClient/Ipc/NetworkServiceClient.cs:181-227 | Only a length that counts as negative in 32 bits can keep the classifier from ending |
| Envelope.BackwardLoopsHere | client/WindowsClient/Ipc/NetworkServiceClient.cs:200-227 | A field other than a message whose length leads back to its own tag keeps it from ending, whatever follows |
| Envelope.ClassifiedByFields | client/WindowsClient/Ipc/NetworkServiceClient.cs:159-176 | On any list of fields it says response exactly when field 2 is a number or field 3 is text |
| Envelope.ResponseIsRecognised | client/WindowsClient/Ipc/NetworkServiceClient.cs:150-179 | A response with defaults left out is recognised, values intact, if and only if its code is not 0 or its message is not empty; all readings of it end |
| Envelope.EventIsNotAResponse | client/WindowsClient/Ipc/NetworkServiceClient.cs:132-139 | No event is taken for a response, its three fields arrive intact, and all readings of it end |
| Framing.Pipe.ReadExact | client/WindowsClient/Ipc/NetworkServiceClient.cs:245-254 | Fills the buffer from any chunking of the bytes, or fails when the pipe closes first |
| Framing.Pipe.ReadFrame | client/WindowsClient/Ipc/NetworkServiceClient.cs:229-240 | The next frame of 1 byte to 16 MiB, independent of chunking |
| Framing.Pipe.ReceiveAll | service/network-service/src/ipc/frame.rs:10-23 | Frames until one is invalid or the pipe closes |
| Framing.FramesRoundTrip | service/network-service/src/ipc/server.rs:206-212 | The frames received are the frames sent if and only if each is of 1 byte to 16 MiB |
| Pairing.IdsDiffer | client/WindowsClient/Ipc/NetworkServiceClient.cs:76 | Calls fewer than 2^32 apart have different identifiers, wrap-around of the counter included |
| Pairing.IdMeans | client/WindowsClient/Ipc/NetworkServiceClient.cs:76 | The identifier is the 32-bit counter in decimal, negative after it wraps |
| Pairing.ReplyIsRecognised | service/network-service/src/ipc/server.rs:158-196 | Whatever a handler does, the client sees a response under the request's identifier with the server's code, message and payload |
| PairingInvariant.RunIsSane | client/WindowsClient/Ipc/NetworkServiceClient.cs:73-148 | Over any run of calls, failed writes, cancellations, server completions in any order and pushed events, the table, the requests under way and the answers stay consistent |
| PairingInvariant.EndedStays | client/WindowsClient/Ipc/NetworkServiceClient.cs:124-130 | A call ends at most once: no later step changes how |
| PairingInvariant.OwnResponseOnly | client/WindowsClient/Ipc/NetworkServiceClient.cs:124-130 | A call completes only with the response the server produced for its own identifier |
| PairingInvariant.OutcomeReachesCaller | service/network-service/src/ipc/server.rs:158-197 | A completed call learns how its own request went: code 0, "ok" and the payload exactly if the handler succeeded; class, text and no payload if it failed; 500 if it panicked |
| PairingInvariant.OutcomeIsDelivered | client/WindowsClient/Ipc/NetworkServiceClient.cs:111-130 | The next frame, if it answers a call that waits, completes it with that outcome |
| PairingInvariant.ServedInTurn | service/network-service/src/ipc/server.rs:128-197 | Once its task has finished and the pipe is drained, the first request in the pipe gets its answer |
| PairingInvariant.PushedArrives | service/network-service/src/ipc/server.rs:100-126 | A published event is read as that event and no response, behind whatever is in the pipe |
| PairingInvariant.RejectionReachesNobody | service/network-service/src/ipc/server.rs:142-156 | A request that cannot be decoded is answered with 422 under no identifier, so that no call is completed by it |
| PairingInvariant.NobodyWaitsAtRest | client/WindowsClient/Ipc/NetworkServiceClient.cs:99-106 | No response is lost: when everything has been delivered no call waits |
| Client.NetworkServiceClient.Register | client/WindowsClient/Ipc/NetworkServiceClient.cs:73-80 | The table and the calls become those of the connection's invoke step |
| Client.NetworkServiceClient.Abandon | client/WindowsClient/Ipc/NetworkServiceClient.cs:93-104 | Likewise for a failed write or a cancellation |
| Client.NetworkServiceClient.Receive | client/WindowsClient/Ipc/NetworkServiceClient.cs:111-140 | Likewise for one frame of the receive loop that does not hang it; an event is raised exactly for a readable frame that is no response, with that frame's fields |
| Traffic.StatsManager.FlushOnce | service/network-service/src/statistics/manager.rs:93-145 | While no 64-bit overflow happened and no insert failed, the session's samples add up to the counters after a flush; a failed insert loses its delta |
| Traffic.StatsManager.EndSession | service/network-service/src/statistics/manager.rs:55-64 | Writes the counters into the session row; the samples account for them if and only if nothing was counted since the last flush |
| Traffic.StatsManager.StartSession | service/network-service/src/statistics/manager.rs:43-53 | A fresh session with zero counters, no samples and a new row, after the old session's row got its totals |
| Traffic.StatsManager.RecordUp | service/network-service/src/statistics/manager.rs:66-68 | Adds to the counter modulo 2^64 and touches nothing else |
| Traffic.Poll | service/network-service/src/main.rs:203-229 | With sessions starting, ending and being flushed between its ticks, the poller records exactly the deltas of successive successful readings while it finds a session active |
| Traffic.PollTelescopes | service/network-service/src/main.rs:211-228 | Between resets the recorded total is the last less the first reading if and only if no counter went back |
| Traffic.RecordedTelescopes | service/network-service/src/main.rs:211-228 | In any case it is at least that difference |
| Traffic.MinusIsLeast | service/network-service/src/main.rs:217-218 | A recorded delta is the least that covers the way from one reading to the next: nothing for a counter that went back |
| Traffic.NewSessionRecords | service/network-service/src/main.rs:203-229 | A session begun since the last tick records the way from its first to its last reading if and only if no counter went back and the poller remembers no lower reading from before |
| NodeHealth.NodeStats.RecordProbe | service/network-service/src/nodes/health.rs:60-79 | Over any probe sequence loss and availability are the exact shares and add up to 1, the score is that of the statistics and within 0 and 100, the latency is the fold of all measured ones, and with measured latencies of at least 1 it stays within them |
| NodeHealth.ScoreIsBounded | service/network-service/src/nodes/health.rs:35-57 | The score is between 0 and 100 for all inputs |
| NodeHealth.ScoreShares | service/network-service/src/nodes/health.rs:35-57 | What each respect is worth, whatever the others are: 30, 25, 20, 15 and 10 points, in proportion |
| NodeHealth.ScoreSaturates | service/network-service/src/nodes/health.rs:35-57 | No more is gained below 0 ms, lost beyond 300 ms, or gained beyond 100 MiB a second |
| NodeHealth.ScoreIsMonotone | service/network-service/src/nodes/health.rs:35-57 | A node no better in any respect never scores higher |
| NodeHealth.SmoothedIsBetween | service/network-service/src/nodes/health.rs:63-69 | Smoothing two positive latencies, rounded half away from zero, lands between them |
| NodeHealth.SmoothedMeans | service/network-service/src/nodes/health.rs:63-69 | Seven tenths of the old latency and three of the new, to the nearest integer; the first counts in full |
| NodeHealth.SwitchesOnlyForAGain | service/network-service/src/nodes/health.rs:113-139 | The best node is selected over another current one if and only if it gains at least the threshold |
| NodeHealth.ScoreOfFirst | service/network-service/src/nodes/health.rs:125-131 | The current node's score is that of the first node of its identifier |
| NodeHealth.SelectionIsIdempotent | service/network-service/src/nodes/health.rs:113-139 | Fixed scores cause at most one switch |
| NodeHealth.SelectedIsListed | service/network-service/src/nodes/health.rs:125-138 | The result is listed unless it is a current node that is not, while no score reaches the threshold |
| NodeHealth.NothingToSelect | service/network-service/src/nodes/manager.rs:206-229 | Nothing is selected exactly when no enabled node was measured before the final probes, or none at all after |
| NodeHealth.DisabledIsSelectedExactly | service/network-service/src/nodes/manager.rs:206-229 | `smart_select` names a disabled node if and only if an enabled one has been measured and the node it settles on is disabled: the current one if the best gains too little on it, the best measured one otherwise |
| NodeHealth.DisabledNodeIsSelected | service/network-service/src/nodes/manager.rs:206-229 | An instance: a disabled node overtakes an enabled one |
| NodeHealth.MisselectionIsPossible | service/network-service/src/nodes/manager.rs:206-229 | Without knowing the scores: a disabled node can come out exactly when one has been measured, or the current one is disabled and any has been measured |

## Left out

- Lifecycle steps: the TUN adapter, node selection, latency readings (`set_latency` and the refresh every fifth tick) and event emission are not steps; they change none of the modelled state.
- Lifecycle configuration: the port, the restart limit and the restore flag are constant during a run; user edits of the registry while a session is up are covered for the route manager alone.
- Lifecycle interleaving: a segment between two awaits is atomic, so preemption inside the tail of `recover` is not modelled.
- Lifecycle form: async methods are steps of a state machine and not methods of a class, because their interleaving at await points is what is proved.
- Monitor timing: intervals and missed ticks are choices of the environment.
- Core internals: writing the core's configuration, waiting for its port, probing the tunnel and reaping are outcomes given from outside; the reported pid is not modelled.
- Registry broadcast: the WinINET notification after a registry write.
- Regular expressions: compiling and matching are uninterpreted functions, as is the parsing of IP address text.
- Engine locking: concurrent edits between cloning and committing the rules, and `decide` seeing an index between two stages.
- Engine configuration: `set_mode`, `set_config` and `test_match`.
- Text case folding is the ASCII one of the source; UTF-8 decoding (`from_utf8_lossy`, `Encoding.UTF8`) is left out, so names and messages are octets.
- DnsWire.ReadName: gives the labels; joining them with dots is stated for names without empty labels.
- DNS transport: sockets, DoH, query identifiers and the resolver's fallbacks.
- Proto.ProtoReader.Seek, and what is built on it: promises nothing about bytes on which the loop never ends, because no method that ends can; `FindEndsExactly` and `ClassifierEndsExactly` say which bytes those are.
- Proto doubles: `ReadDoubleField`.
- IPC liveness: calls left pending when the pipe drops are not completed by the source either, and nothing is claimed about them; identifiers repeat after 2^32 calls.
- Protobuf on the server: prost is represented by an encoder that writes fields in order and leaves out defaults.
- Traffic.Poll: other tasks act between its ticks, not between its two additions for one reading.
- Traffic rates: bytes per second, today's totals and the published payloads.
- NodeHealth arithmetic: floating-point numbers are reals; scores that are not finite do not occur.
- Time: clocks are parameters; the DNS cache counts nanoseconds.
- User interface, subscription parsers, core configuration builders, SQLite and Win32 calls.
