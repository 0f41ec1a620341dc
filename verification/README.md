# Verified model of the edge orchestrator

This project models the control plane, data plane and execution plane of the
edge orchestrator in Dafny and proves what holds over all of their runs. Each
component is modelled in the form the code has: objects with mutable fields are
classes whose methods are proved against a function on the object's state,
protocols are state machines whose steps are the lock sections, channel
operations and awaits of the code, and the theorems quantify over every
sequence of steps.

| file | component |
|---|---|
| `ProjectExchange.dfy`, `ProjectAnswers.dfy` | executor side of the project protocol: event loop, detached jobs, bounded queues |
| `ProjectClient.dfy` | master side: dispatched tasks, recorded results, what a poll reports |
| `BlobFetch.dfy`, `BlobFetchSafety.dfy`, `BlobFetchOutcomes.dfy` | pulling a missing blob from peers, with concurrent callers |
| `ObjectFormat.dfy`, `ObjectStore.dfy` | hashed pre-images and the on-disk object store, torn writes included |
| `LruCache.dfy`, `RaftStorage.dfy`, `RaftLogRefinement.dfy`, `RaftLosses.dfy`, `RaftCompaction.dfy`, `RaftTerms.dfy` | Raft log storage: store, hash index and LRU cache against a plain map |
| `ClusterState.dfy`, `Topology.dfy` | replicated roles, the apply loop, topology reconciliation |
| `SandboxWorker.dfy`, `PhaseBudget.dfy` | the VM worker, its pool plan and the time budgets |
| `PackFile.dfy`, `Framing.dfy` | packfiles and length-prefixed frames |
| `Prelude.dfy` | bytes, options, results |

`dafny verify dfyconfig.toml` checks everything.

## Conventions

* The environment is a parameter. Whether a disk write completes, what a peer
  answers, whether a VM boots, how long an await takes and which runnable step
  comes next are inputs, so a theorem holds for every choice of them.
* SHA-256 is an arbitrary function from pre-images to hashes. Where a property
  needs that two particular pre-images do not collide, its lemma says so.
* A property that fails in some runs is stated with the exact condition under
  which it holds, and a lemma with the run that breaks it.
* Integers that the code keeps in 64 bits are unbounded; the one 32-bit cast
  (a frame's length) wraps as in the code.

## Where the code differs from what it says

* Every accepted project request is said to produce a response
  (`crates/p2p/src/swarm.rs:405`). Two requests with the same task id in flight
  lose the first one's channel: `insert` overwrites it
  (`crates/p2p/src/swarm.rs:451`). A job that panics answers nobody either.
  `ProjectAnswers.AllAnsweredIffNoLoss` shows that these are the only two ways, and
  `CollisionLosesARequest` and `PanicLosesARequest` give a run for each.
  The branch for an outcome without a channel, explained as a job that finishes
  before its channel is registered (`crates/p2p/src/swarm.rs:241-243`), is never
  reached that way, only after such an overwrite.
* A result that arrives before the `Dispatched` record was written is reported
  as completed, and as failed once the grace period has passed
  (`crates/node/src/project_client.rs:172-183`, `197-202`).
* `drop_waiter` drops every waiter of the blob, not only the caller that gives up
  (`crates/node/src/cas_fetch.rs:158-162`), and a response is stored and handed on
  without comparing its hash with the one requested
  (`crates/node/src/cas_fetch.rs:65-88`).
* A write that fails half-way leaves a file behind that every retry takes for the
  finished object (`crates/storage/src/store.rs:170-202`). So a fetch can return bytes
  that the store cannot serve a moment later, and the Raft log can lose an entry
  that was reported as stored, without an error. A tag is stored under the
  key of the blob that its JSON would make (`crates/storage/src/store.rs:133-140`).
* Raft entries are said to be stored under `raft-entry-{index}`, with compacted
  ones removed from the store (`crates/node/src/raft/storage.rs:32`, `170`). They are
  stored under their content hash and stay. An entry read back from the store has
  term 0, and `term` reads the first eight bytes of a payload that never held one
  (`crates/node/src/raft/storage.rs:268-272`, `320-325`).
* The pool is said to boot the replacement machine while the worker is idle
  (`crates/sandbox/src/pool.rs:3-6`). The worker refills before it sends the reply
  (`crates/sandbox/src/qlean.rs:298-343`), so the requester waits for that boot. The
  pool target is said to be a number of idle machines; the worker keeps one.

## Model

| member | source | states |
|---|---|---|
| `ProjectExchange.EventLoop.constructor` | crates/p2p/src/swarm.rs:180-183 | the loop starts with nothing parked, answered or spawned |
| `ProjectExchange.EventLoop.HandleProjectRequest` | crates/p2p/src/swarm.rs:421-504 | without an executor the request is answered at once with exit code 101, nothing on stdout and the rejection on stderr; with one its channel is parked under its task id, replacing whatever was parked there, and one job is spawned |
| `ProjectExchange.EventLoop.HandleOutcome` | crates/p2p/src/swarm.rs:225-245 | an outcome answers exactly the channel parked under its task id and removes it, or is recorded as having none |
| `ProjectExchange.EventLoop.Run` | crates/p2p/src/swarm.rs:194-245 | the loop over any sequence of requests and outcomes refines the fold of the two handlers |
| `ProjectExchange.NoRequestUntracked` | crates/p2p/src/swarm.rs:180-245 | in every run, collisions and panics included, each request's channel is in exactly one place (answered once, parked, overwritten), and received = answered + parked + overwritten |
| `ProjectExchange.ConservedByStep` | crates/p2p/src/swarm.rs:225-245 | each single step keeps every channel in exactly one place |
| `ProjectAnswers.OneJobPerParkedRequest` | crates/p2p/src/swarm.rs:447-503 | without colliding ids, parked channels and jobs (running, queued or dead) correspond one to one, no outcome finds its channel missing, and every result travels to the request that caused it |
| `ProjectAnswers.OneForOneByStep` | crates/p2p/src/swarm.rs:225-245 | every step but a colliding arrival keeps that correspondence |
| `ProjectAnswers.ChannelLostIffCollision` | crates/p2p/src/swarm.rs:451-451 | a channel is overwritten in a run exactly when some arrival finds its task id still parked |
| `ProjectAnswers.AllAnsweredIffNoLoss` | crates/p2p/src/swarm.rs:405-503 | once nothing is left to do, all requests were answered if and only if no arrival collided and no job panicked |
| `ProjectAnswers.RejectionsAreImmediate` | crates/p2p/src/swarm.rs:370-380 | on a node without an executor, every reachable state has one answer per request, in order, with its task id, exit code 101, empty stdout and the rejection on stderr |
| `ProjectAnswers.AnswersAreEarned` | crates/p2p/src/swarm.rs:453-465 | on a node with one, every answer of a collision-free run is what the executor returned for that request, or exit code 1 with empty stdout and its error message on stderr |
| `ProjectAnswers.QueuesAreBounded` | crates/p2p/src/swarm.rs:133-137 | the outcome queue never holds more than 8 outcomes and the event channel never more than 256 events |
| `ProjectAnswers.InternalStepCostsOne` | crates/p2p/src/swarm.rs:452-503 | every internal step lowers the count of remaining steps by exactly one |
| `ProjectAnswers.DrainingEmptiesPending` | crates/p2p/src/swarm.rs:225-245 | from every reachable state, after collisions and panics too, every internal schedule stops after exactly the measured number of steps, and then a channel is parked only if its own job died; without a dead job nothing is pending |
| `ProjectAnswers.DrainingAnswersEveryRequest` | crates/p2p/src/swarm.rs:225-245 | from any state without losses, it also stops with all requests answered by their own job's result |
| `ProjectAnswers.SomeScheduleDrains` | crates/p2p/src/swarm.rs:133-137 | the bounded queues never deadlock the executor: from any accounted state, overwritten and orphaned channels included, some internal schedule drains it |
| `ProjectAnswers.ReachableStatesDrain` | crates/p2p/src/swarm.rs:133-137 | every reachable state can be drained |
| `ProjectAnswers.CollisionLosesARequest` | crates/p2p/src/swarm.rs:451-451 | the run in which a reused id sends the first job's result to the second requester and leaves the first unanswered, with both jobs finished and nothing left to do |
| `ProjectAnswers.PanicLosesARequest` | crates/p2p/src/swarm.rs:452-503 | the run in which a job dies and its requester's channel stays parked for good |
| `ProjectClient.ProjectTracker.constructor` | crates/node/src/project_client.rs:60-75 | nothing is tracked at first |
| `ProjectClient.ProjectTracker.SubmitLocalProject` | crates/node/src/project_client.rs:133-185 | dispatches and tracks exactly when the snapshot is stored, a peer is found and the command channel is open; each failure leaves everything unchanged and is told apart |
| `ProjectClient.ProjectTracker.RecordResult` | crates/node/src/project_client.rs:188-203 | marks the task done, then stores the result |
| `ProjectClient.ProjectTracker.TaskStatus` | crates/node/src/project_client.rs:219-236 | unknown and overdue dispatched tasks are failed, all others report their record |
| `ProjectClient.ProjectTracker.GetResult` | crates/node/src/project_client.rs:206-211 | returns the stored result if there is one |
| `ProjectClient.ProjectTracker.FetchProjectResult` | crates/node/src/ipc/handler.rs:203-230 | reports completed exactly when a result is stored for a tracked task that is neither failed nor overdue, and then that result |
| `ProjectClient.CompletedForeverIff` | crates/node/src/project_client.rs:172-203 | every later poll, its two reads arbitrarily far apart, reports a task completed if and only if its result is stored, it is marked done and no dispatch record for it is still to be written |
| `ProjectClient.OnceCompletedAlwaysCompleted` | crates/node/src/ipc/handler.rs:203-230 | when no result of the task overtakes its own dispatch record, completed once is completed for ever |
| `ProjectClient.LateDispatchRecordHidesResult` | crates/node/src/project_client.rs:172-183 | the run in which a late record turns a completed task into a failed one with its result still stored |
| `ProjectClient.PendingExactly` | crates/node/src/project_client.rs:188-203 | in every reachable state, a task is pending exactly while it has no result and is either dispatched within the grace period or between the two locks of a recording |
| `ProjectClient.NeverPendingPastGrace` | crates/node/src/project_client.rs:213-236 | past the grace period a poll reports pending only if a result was just then being stored |
| `ProjectClient.PollExactly` | crates/node/src/project_client.rs:219-236 | in every reachable state a poll is failed exactly for a task never recorded or dispatched more than 1920 seconds ago, otherwise completed with the stored result or pending without one |
| `ProjectClient.RecordsAreStamped` | crates/node/src/project_client.rs:181-202 | each lock section writes its own task's record with the current time, or its result, and no other |
| `BlobFetch.BlobFetcher.constructor` | crates/node/src/cas_fetch.rs:44-59 | no waiters at first |
| `BlobFetch.BlobFetcher.OnBlobReceived` | crates/node/src/cas_fetch.rs:65-88 | a usable response is stored, then every waiter of the hash is removed and sent the data; anything else changes nothing but a possibly torn file |
| `BlobFetch.BlobFetcher.DropWaiter` | crates/node/src/cas_fetch.rs:158-162 | forgets every waiter of the hash and closes each channel that holds no value |
| `BlobFetchSafety.TrackedByStep` | crates/node/src/cas_fetch.rs:65-162 | every step of every call, arrival and clean-up, a timeout on a channel that was just served included, keeps each open channel's one sender accounted for |
| `BlobFetchSafety.WaitingCallIsInOneOfFourCases` | crates/node/src/cas_fetch.rs:95-156 | over every interleaving a waiting call is in exactly one of four cases: registered, held by the delivering step, sent, closed |
| `BlobFetchSafety.NoWaiterLeaks` | crates/node/src/cas_fetch.rs:132-162 | no sender of a call that has returned is left among the waiters |
| `BlobFetchSafety.ClosesExactly` | crates/node/src/cas_fetch.rs:132-162 | of all steps only a clean-up closes an open channel, and exactly those registered for its own blob |
| `BlobFetchSafety.FindsClosedIffCleanedUp` | crates/node/src/cas_fetch.rs:140-145 | a waiting call finds its channel closed if and only if, since it registered, another call's clean-up for the blob ran before any delivery took the waiters |
| `BlobFetchSafety.GivingUpDropsEveryWaiter` | crates/node/src/cas_fetch.rs:158-162 | a clean-up closes the channel of every call registered for the blob, waiting or still asking |
| `BlobFetchSafety.OkMatchesIffResponsesDo` | crates/node/src/cas_fetch.rs:65-138 | for any set of possible responses: every `Ok` of every run carries the requested hash if and only if every non-empty response in the set does |
| `BlobFetchSafety.MislabelledBytesAreReturned` | crates/node/src/cas_fetch.rs:65-88 | the run in which one mislabelled response is returned to the caller |
| `BlobFetchSafety.ReturnedBytesAreServedIff` | crates/node/src/cas_fetch.rs:69-87 | with honest responses and no hash collision, a file sits under the hash of every call that returned `Ok(bytes)`, and from then on the store serves those bytes if and only if that file is neither torn nor a tag |
| `BlobFetchSafety.TornSlotHidesReturnedBytes` | crates/node/src/cas_fetch.rs:69-87 | the run with two honest responses, the first cut short on disk, in which the call returns the right bytes and the store cannot serve them |
| `BlobFetchSafety.DeliverIsARun` | crates/node/src/cas_fetch.rs:65-88 | the uninterrupted arrival is one of the runs those theorems quantify over |
| `BlobFetchOutcomes.StoredBlobIsReturned` | crates/node/src/cas_fetch.rs:95-102 | over every run: a call whose blob the store serves when it begins never registers or gives up, and returns exactly the stored bytes once it has checked |
| `BlobFetchOutcomes.CheckMissesIff` | crates/node/src/cas_fetch.rs:96-102 | a check misses exactly when the store serves nothing for the hash, and otherwise returns what it serves |
| `BlobFetchOutcomes.FetchesIffNotServed` | crates/node/src/cas_fetch.rs:96-111 | over every run a call goes to the network if and only if the store could not serve its blob at its check |
| `BlobFetchOutcomes.FailsExactlyAsMet` | crates/node/src/cas_fetch.rs:113-155 | a call gives up or returns an error if and only if it met just that failure: no peer, channel closed, time run out |
| `BlobFetchOutcomes.DeliverySendsToEveryWaiter` | crates/node/src/cas_fetch.rs:65-88 | a usable arrival sends its bytes to every call waiting for its hash and to nobody else; any other sends nothing, and one that found nothing is not stored |
| `BlobFetchOutcomes.NextStepIsEnabled` | crates/node/src/cas_fetch.rs:95-156 | in every reachable state a call that has not returned can make its next step, and while it waits its timer may run out whatever its channel holds |
| `BlobFetchOutcomes.OwnStepsDecrease` | crates/node/src/cas_fetch.rs:95-156 | each step of its own brings a call closer to its return, of which there are at most five, and no other step moves it |
| `ObjectFormat.PreimageInjective` | crates/storage/src/objects.rs:96-127 | a pre-image determines the object's kind and its content |
| `ObjectFormat.DecimalShowsItsNumber` | crates/storage/src/objects.rs:97-97 | a length is written in decimal digits that show it, without a leading zero |
| `ObjectFormat.PreimageFields` | crates/storage/src/objects.rs:96-102 | kind, space, digits that show the content's length, NUL, content |
| `ObjectFormat.AtMostIsLexicographic` | crates/storage/src/objects.rs:111-111 | names are in dictionary order: a prefix first, otherwise the first differing byte decides |
| `ObjectFormat.SortIsStable` | crates/storage/src/objects.rs:110-111 | entries of one name keep their order |
| `ObjectFormat.ModeTextIsGits` | crates/storage/src/objects.rs:114-118 | the three modes, digit by digit |
| `ObjectFormat.TreeContentFields` | crates/storage/src/objects.rs:113-120 | the content is the sorted entries' lines in order, each as mode, space, hash, space, name, newline |
| `ObjectFormat.WriteTreeContent` | crates/storage/src/objects.rs:108-120 | the loop over the sorted copy produces the tree content |
| `ObjectFormat.SortFacts` | crates/storage/src/objects.rs:110-111 | the sort returns a permutation in name order |
| `ObjectFormat.TreeContentDeterminesSort` | crates/storage/src/objects.rs:113-120 | for newline-free names and space-free hashes, equal content means equal sorted entries |
| `ObjectFormat.TreeContentCanonical` | crates/storage/src/objects.rs:108-127 | with distinct names, two entry lists have the same content exactly when they are permutations of each other |
| `ObjectFormat.RepeatedNameIsOrderSensitive` | crates/storage/src/objects.rs:111-111 | with a repeated name the order of the input shows in the content |
| `ObjectFormat.CommitContentInjective` | crates/storage/src/objects.rs:130-158 | two commits have the same text exactly when they agree in every field, to the second |
| `ObjectFormat.CommitContentIsItsLines` | crates/storage/src/objects.rs:137-151 | the text is the tree line, one line per parent, author and committer lines, an empty line and the message |
| `ObjectFormat.WriteCommitContent` | crates/storage/src/objects.rs:130-151 | the loop over the parents builds those lines |
| `ObjectStore.LocalObjectStore.constructor` | crates/storage/src/store.rs:34-42 | opens a root with whatever it holds |
| `ObjectStore.LocalObjectStore.WriteObject` | crates/storage/src/store.rs:170-202 | an existing file is never touched and counts as success; otherwise the file is whole, absent or torn as the disk decides |
| `ObjectStore.LocalObjectStore.ReadObject` | crates/storage/src/store.rs:205-235 | absent, torn and whole files are told apart |
| `ObjectStore.LocalObjectStore.PutBlob` | crates/storage/src/store.rs:45-54 | the blob is written under the digest of its pre-image |
| `ObjectStore.LocalObjectStore.GetBlobData` | crates/storage/src/store.rs:57-65 | only a whole blob is returned |
| `ObjectStore.LocalObjectStore.PutTree` | crates/storage/src/store.rs:68-77 | the tree is written as given, under the digest of its sorted content |
| `ObjectStore.LocalObjectStore.GetTreeEntries` | crates/storage/src/store.rs:80-88 | only a whole tree is returned |
| `ObjectStore.StoreOnlyGrows` | crates/storage/src/store.rs:170-202 | over any run of writes, failing ones included, no file changes or disappears and every whole file sits under its own key |
| `ObjectStore.PreimagesAreTyped` | crates/storage/src/objects.rs:96-158 | the byte string behind each kind of key, byte by byte; a tag's is that of a blob of its JSON |
| `ObjectStore.BlobRoundTripIff` | crates/storage/src/store.rs:45-65 | after a successful write the blob reads back if and only if its slot was not already taken by a torn file or a tag |
| `ObjectStore.TreeRoundTripIff` | crates/storage/src/store.rs:68-88 | after a successful write a permutation of the entries, repeated names included, reads back if and only if the slot held no torn file, also when the write was skipped |
| `ObjectStore.TornWriteShadowsRetry` | crates/storage/src/store.rs:170-199 | after a write cut short, the retry reports success and the blob stays unreadable |
| `ObjectStore.TagShadowsBlob` | crates/storage/src/store.rs:125-143 | a tag takes the key of the blob of its JSON, which then cannot be read |
| `ObjectStore.CleanStoreServes` | crates/storage/src/store.rs:45-65 | in a store without torn files and tags, a collision-free digest keeps every blob's slot available |
| `LruCache.PutFacts` | crates/node/src/raft/storage.rs:129-133 | a put stores its entry, changes no other, and evicts only when the cache is full and the key new |
| `LruCache.SizeIsOrder` | crates/node/src/raft/storage.rs:18-18 | the cache never holds more keys than its capacity |
| `LruCache.EvictsLeastRecentlyUsed` | crates/node/src/raft/storage.rs:41-42 | however the cache was used, a put evicts a key if and only if the cache is full, the key put is new and no other cached key was used longer ago |
| `RaftStorage.CasRaftStorage.constructor` | crates/node/src/raft/storage.rs:65-81 | indexes start at first 1, last 0 with nothing cached |
| `RaftStorage.CasRaftStorage.AppendEntry` | crates/node/src/raft/storage.rs:113-144 | stores the payload, grows the hash index, caches the entry and raises the last index; a failed store write changes nothing else |
| `RaftStorage.CasRaftStorage.CompactTo` | crates/node/src/raft/storage.rs:172-197 | fails past the last index; otherwise moves the first index, in either direction, and empties the cache up to the point |
| `RaftStorage.CasRaftStorage.ReadEntries` | crates/node/src/raft/storage.rs:227-290 | the read loop with its running total returns what the recursive specification does and leaves the same cache |
| `RaftStorage.CasRaftStorage.PayloadAt` | crates/node/src/raft/storage.rs:262-267 | the payload behind a tracked hash, if it can be read |
| `RaftStorage.CasRaftStorage.TermAt` | crates/node/src/raft/storage.rs:292-330 | below the log an error, just below it 0, else the cached term or the first eight payload bytes |
| `RaftStorage.CasRaftStorage.Snapshot` | crates/node/src/raft/storage.rs:340-374 | every readable payload from 1 to the last index, in order, each followed by a newline, with the last index and the constant term 1 |
| `RaftLogRefinement.SoundByOp` | crates/node/src/raft/storage.rs:113-330 | every operation, whatever the disk does, keeps the hash index pointing at each logged payload's slot and the cache at the payload or what its slot serves |
| `RaftLogRefinement.RefinesIffBacked` | crates/node/src/raft/storage.rs:113-290 | after any run, failing writes and other users of the store included, the storage refines the plain map if and only if the file in each logged payload's slot is that payload |
| `RaftLogRefinement.RefinedThroughoutIffServed` | crates/node/src/raft/storage.rs:113-144 | over any run the refinement holds at every step if and only if every successful append found its slot free or right |
| `RaftLogRefinement.ReadsRefineTheLog` | crates/node/src/raft/storage.rs:227-290 | in that case, after any evictions, a read returns the longest prefix within the size limit (never less than one entry) of the logged range, with the payloads last appended |
| `RaftLogRefinement.ReadsIgnoreTheCache` | crates/node/src/raft/storage.rs:247-285 | what a read returns does not depend on what is cached |
| `RaftLogRefinement.GapFreeReadsAreComplete` | crates/node/src/raft/storage.rs:227-290 | in that case and with gap-free appends, an unlimited read is exactly the range asked for, and a limited one is non-empty whenever the range is |
| `RaftLosses.TornPayloadIsSkipped` | crates/node/src/raft/storage.rs:260-285 | the gap-free run in which a write cut short, then reported as stored, makes a read skip an index silently once the cache has evicted it |
| `RaftLogRefinement.SnapshotIsTheWholeLogIff` | crates/node/src/raft/storage.rs:340-360 | after any run a snapshot is the text of the whole log, compacted entries included and whatever is cached, if and only if every logged payload is in its slot; otherwise it is shorter |
| `RaftCompaction.FirstFollowsCompaction` | crates/node/src/raft/storage.rs:172-197 | over every run the first index is one past the last successful compaction, or 1; the term just below it is 0 and every earlier one unavailable |
| `RaftCompaction.CompactionForgetsExactly` | crates/node/src/raft/storage.rs:176-194 | past the last index nothing changes; otherwise no index from 1 to the point stays cached, every other entry does, and last index, hash index and store are unchanged |
| `RaftCompaction.LastIsHighestLogged` | crates/node/src/raft/storage.rs:135-140 | over every run the last index is the highest ever logged, 0 for none |
| `RaftCompaction.LiveTerm` | crates/node/src/raft/storage.rs:305-329 | above the first index the term is the cached entry's, or what the payload says, or unavailable for an index never logged |
| `RaftCompaction.TermInDataIsLittleEndian` | crates/node/src/raft/storage.rs:320-326 | a payload's term is its first eight bytes, the first counting least; a shorter one has none |
| `RaftTerms.PinnedIffNarrow` | crates/node/src/raft/storage.rs:18-18 | under Raft's index discipline, whatever becomes of the writes to the store, every live entry stays cached whole at every step if and only if the live window never exceeds 1024 |
| `RaftTerms.NarrowRunsAreExact` | crates/node/src/raft/storage.rs:250-311 | in such runs reads return the very entries last appended, and each live index its own term |
| `RaftTerms.OverflowLosesATerm` | crates/node/src/raft/storage.rs:268-327 | one entry more, and some live entry's term is read from its payload, then reported as 0 after a reload |
| `RaftTerms.AppendRefreshes` | crates/node/src/raft/storage.rs:129-133 | a successful append makes its index the most recently used |
| `RaftTerms.LookupsRefresh` | crates/node/src/raft/storage.rs:250-311 | so do term hits and reads, cached or reloaded; a hit moves no other index and a miss of `term` none |
| `ClusterState.ClusterMachine.constructor` | crates/node/src/raft/state_machine.rs:22-32 | the default state is empty |
| `ClusterState.ClusterMachine.Restore` | crates/node/src/raft/state_machine.rs:96-102 | a restored machine has the snapshot's state |
| `ClusterState.ClusterMachine.TakeSnapshot` | crates/node/src/raft/state_machine.rs:87-93 | a snapshot is the whole state |
| `ClusterState.ClusterMachine.Apply` | crates/node/src/raft/state_machine.rs:36-84 | one proposal's effect, and a result that names a change exactly when there was one |
| `ClusterState.ClusterMachine.ApplyCommitted` | crates/node/src/raft/node.rs:193-215 | registry and roles change exactly as applying the decodable entries' proposals in order changes them; empty and undecodable entries are skipped |
| `ClusterState.ApplyLogSplits` | crates/node/src/raft/node.rs:192-215 | applying two batches is applying their concatenation |
| `ClusterState.LifeIsTheLog` | crates/node/src/raft/state_machine.rs:86-102 | batch boundaries and snapshot-restore points leave no trace in a replica's state |
| `ClusterState.ReplicasAgree` | crates/node/src/raft/node.rs:192-215 | replicas with the same committed log have the same state |
| `ClusterState.ReachableStatesAreWellFormed` | crates/node/src/raft/state_machine.rs:51-82 | in every reachable state roles belong to registered nodes and no node holds a role twice |
| `ClusterState.LogAppliesItsProposals` | crates/node/src/raft/node.rs:193-215 | applying a log changes registry and roles as applying its proposals one by one does |
| `ClusterState.AppliedIndexIsLastCarrier` | crates/node/src/raft/node.rs:199-206 | the applied index is that of the last entry that carried a proposal |
| `ClusterState.CommittedLogIsItsHistory` | crates/node/src/raft/node.rs:192-215 | whatever its batches and restarts, a replica's registry, descriptors, roles and applied index are read off the committed proposals |
| `ClusterState.StateIsItsHistory` | crates/node/src/raft/state_machine.rs:36-84 | registry and roles are exactly what the history says: registered last, assigned while registered and not taken away since |
| `ClusterState.DescriptorIsLatest` | crates/node/src/raft/state_machine.rs:38-41 | every registered node carries the descriptor of its latest registration |
| `ClusterState.RolesAfter` | crates/node/src/raft/state_machine.rs:58-82 | one proposal's effect on one node and role |
| `Topology.DesiredRoles` | crates/node/src/orchestration/topology.rs:52-65 | exactly the roles some assignment gives to the node, without repeats |
| `Topology.Merge` | crates/node/src/orchestration/topology.rs:58-63 | adds the missing roles and keeps the list free of repeats |
| `Topology.MissingOf` | crates/node/src/orchestration/topology.rs:69-77 | one assignment for each role wanted and not held |
| `Topology.ExtraOf` | crates/node/src/orchestration/topology.rs:82-90 | one revocation for each occurrence of a role held and not wanted |
| `Topology.DiffTopology` | crates/node/src/orchestration/topology.rs:46-94 | whatever order the maps yield, the proposals are exactly the needed ones, each as often as needed |
| `Topology.StaleDiffReachesDesiredIff` | crates/node/src/orchestration/role_engine.rs:58-70 | a diff against any `current`, such as the roles descriptors report, reaches the desired roles in any order if and only if every wanted role is held, or missing from `current` on a registered node, and no unwanted one is held more often than `current` says |
| `Topology.DiffReachesDesiredIff` | crates/node/src/orchestration/topology.rs:42-94 | applied in any order, a diff against the replicated roles gives every node exactly its desired roles if and only if every node that lacks one is registered |
| `Topology.SecondDiffIsEmpty` | crates/node/src/orchestration/topology.rs:67-91 | once the roles are as desired, a diff proposes nothing |
| `Topology.DiffIsMinimal` | crates/node/src/orchestration/topology.rs:52-91 | every sequence of role changes that reaches the desired roles contains all of the diff's proposals |
| `Topology.OneProposalPerDifference` | crates/node/src/orchestration/topology.rs:67-91 | in a well-formed state there is exactly one proposal for each pair on which current and desired roles differ |
| `Topology.CountAfterAll` | crates/node/src/raft/state_machine.rs:58-82 | the effect of any sequence of role changes on one pair, from the number of its proposals about that pair |
| `SandboxWorker.Worker.constructor` | crates/sandbox/src/qlean.rs:224-227 | the worker starts without image and machine, under the plan for its mode |
| `SandboxWorker.Worker.EnsureImage` | crates/sandbox/src/qlean.rs:353-379 | the image is prepared at most once, and kept |
| `SandboxWorker.Worker.BootMachine` | crates/sandbox/src/qlean.rs:385-422 | a successful boot replaces the held machine by a new one, a failed one changes nothing |
| `SandboxWorker.Worker.DropMachine` | crates/sandbox/src/qlean.rs:288-308 | the held machine is given up |
| `SandboxWorker.Worker.PrepareJob` | crates/sandbox/src/qlean.rs:256-276 | fails for the image exactly when there is none, for the boot exactly when no held machine answers and the boot fails; keeps a machine that answers and otherwise boots a new one |
| `SandboxWorker.Worker.FollowPlan` | crates/sandbox/src/qlean.rs:297-341 | the plan's actions in order: keep, or discard and refill once an image exists |
| `SandboxWorker.Worker.ServeJob` | crates/sandbox/src/qlean.rs:240-343 | one job: prepare, run, drop the machine on failure, follow the plan, reply |
| `SandboxWorker.Worker.Run` | crates/sandbox/src/qlean.rs:240-344 | the worker loop refines the fold of serving one job |
| `SandboxWorker.OneReplyPerJob` | crates/sandbox/src/qlean.rs:240-343 | every job is answered once and in order; no handle is owned but that of the held machine, of which there is at most one |
| `SandboxWorker.HeldMachineIsUnused` | crates/sandbox/src/qlean.rs:297-341 | in fresh mode the machine held between jobs has never run one |
| `SandboxWorker.HeldMachineIsTheLast` | crates/sandbox/src/qlean.rs:278-301 | in reuse mode the machine of the last job is held, exactly if that job succeeded |
| `SandboxWorker.SharedMachineIff` | crates/sandbox/src/qlean.rs:256-341 | two jobs run on one machine if and only if machines are reused, all jobs from the first up to the second succeeded and the machine answered each time; so never in fresh mode, and never after a failure |
| `SandboxWorker.ImageStaysPrepared` | crates/sandbox/src/qlean.rs:353-379 | after one job got past the image stage, no later job fails there |
| `SandboxWorker.GetsMachineIff` | crates/sandbox/src/qlean.rs:256-276 | over every run a job gets a machine if and only if the image was available to some job up to it and the held machine answers or a boot succeeds; otherwise the reply names the failed stage |
| `SandboxWorker.HeldAfterIff` | crates/sandbox/src/qlean.rs:278-341 | between jobs a machine is held, in reuse mode, exactly after a success, in fresh mode exactly after a successful refill, and then it is the one booted last |
| `SandboxWorker.PlanFollowsMode` | crates/sandbox/src/pool.rs:49-73 | reuse keeps and never pools; otherwise the target is the configured size up to eight and every job's machine is discarded, with a refill exactly if there is a target |
| `SandboxWorker.PoolSizesAlikeIff` | crates/sandbox/src/pool.rs:49-73 | two configured pool sizes behave alike on every run if and only if machines are reused or the sizes are both zero or both positive |
| `SandboxWorker.ReplyIsTheJobsOwn` | crates/sandbox/src/qlean.rs:278-343 | a job that got a machine is answered by what happened on it, one that got none by the stage that failed |
| `PhaseBudget.Budget` | crates/sandbox/src/qlean.rs:74-89 | between one second and the stage's cap, and more than a second only within the deadline |
| `PhaseBudget.FullBudgetIff` | crates/sandbox/src/qlean.rs:59-89 | a stage gets its whole cap if and only if 900 s (image), 1200 s (boot), 300 s (upload), 1800 s (build) or 1805 s (run) are left, and never more time later |
| `PhaseBudget.BudgetIsItsShare` | crates/sandbox/src/qlean.rs:76-81 | between a second and its cap a budget is a third, half, all, or all but five seconds of what is left, rounded down |
| `PhaseBudget.LeastBudgetIff` | crates/sandbox/src/qlean.rs:82-88 | the caps, and exactly when a stage is left with a single second |
| `PhaseBudget.JobEndsBy` | crates/sandbox/src/qlean.rs:361-526 | whatever stages a job goes through, it is over six seconds after the later of its start and its deadline |
| `PhaseBudget.BoundAttainedIff` | crates/sandbox/src/qlean.rs:74-89 | that bound is attained by exactly the jobs that start at or after their deadline |
| `PhaseBudget.EarlyStartStaysBelow` | crates/sandbox/src/qlean.rs:74-89 | a job that starts in time stays strictly below it |
| `PhaseBudget.RunLeavesFiveSecondsIff` | crates/sandbox/src/qlean.rs:80-80 | the run stage is sure to end five seconds before the deadline if and only if six seconds are left as it starts |
| `PhaseBudget.QueueDrainsBy` | crates/sandbox/src/qlean.rs:240-343 | a queue of jobs is answered within one overrun per job after the later of now and the latest deadline, refills included |
| `PhaseBudget.RefillDelaysTheReply` | crates/sandbox/src/qlean.rs:311-343 | the reply to a job that ended in time can come twenty minutes later, after the refill |
| `PhaseBudget.RepliesInTimeIff` | crates/sandbox/src/qlean.rs:297-343 | every reply comes within six seconds of the later of start and deadline if and only if machines are not pooled |
| `PackFile.PackWriter.Append` | crates/storage/src/index.rs:90-99 | appends the object; index and offset stay those of the objects so far |
| `PackFile.PackWriter.WritePack` | crates/storage/src/index.rs:107-112 | the packfile holds the data in order, or a prefix of it if the disk is full |
| `PackFile.PackWriter.ListIndex` | crates/storage/src/index.rs:115-126 | lists every index entry once, in any order |
| `PackFile.PackWriter.Flush` | crates/storage/src/index.rs:102-134 | both files after a flush, for every point at which it can fail |
| `PackFile.PackReader.Open` | crates/storage/src/index.rs:153-173 | rebuilds the index from the listed entries; a missing or garbled index is an error |
| `PackFile.PackReader.Read` | crates/storage/src/index.rs:176-194 | unknown hash, missing pack and short pack are told apart; otherwise the entry's slice of the packfile |
| `PackFile.PackReader.Exists` | crates/storage/src/index.rs:197-199 | true exactly when a read would not report the object as unknown |
| `PackFile.ObjectsTileThePack` | crates/storage/src/index.rs:90-112 | the objects tile the packfile without gap or overlap, each with its own data |
| `PackFile.IndexedIffAppended` | crates/storage/src/index.rs:90-99 | the index knows exactly the appended hashes |
| `PackFile.OpenedIndexIsWriters` | crates/storage/src/index.rs:114-173 | in whatever order the entries were listed, opening gives back the writer's index |
| `PackFile.ReadsReturnTheLastAppend` | crates/storage/src/index.rs:90-199 | after any appends, flush and open: exactly the appended hashes exist, and each reads as the data last appended under it |
| `PackFile.NothingWithoutPack` | crates/storage/src/index.rs:176-183 | without a packfile an indexed hash reports the missing file and any other is unknown |
| `PackFile.StaleReaderIsNeverWrong` | crates/storage/src/index.rs:176-194 | over a pack that later appends rewrote, even cut short, an older reader returns the right bytes or an error, and the right bytes whenever they are there |
| `PackFile.ForeignPackServesWrongBytes` | crates/storage/src/index.rs:176-194 | over another writer's pack of the same size a reader returns bytes never appended under the hash |
| `Framing.Stream.ReadLengthPrefixed` | crates/p2p/src/protocol.rs:128-144 | payload or error, and how much of the stream is consumed |
| `Framing.Stream.WriteLengthPrefixed` | crates/p2p/src/protocol.rs:146-154 | writes the whole frame, or a prefix of it and an error |
| `Framing.BigEndianRoundTrip` | crates/p2p/src/protocol.rs:134-150 | the header decodes to the length it encodes |
| `Framing.FrameRoundTripIff` | crates/p2p/src/protocol.rs:128-154 | anywhere in a stream, a payload is read back with exactly its frame consumed if and only if it is within the limit and shorter than 2^32 |
| `Framing.CutShortNeverReadIff` | crates/p2p/src/protocol.rs:128-154 | no strict prefix of a frame yields a payload, if and only if the length did not wrap or wrapped to more than the limit |
| `Framing.CutShortIsReported` | crates/p2p/src/protocol.rs:128-144 | a frame cut short is reported as too large, with its length, once its header shows that, and otherwise as the end of the stream, all of it consumed |
| `Framing.FrameBytes` | crates/p2p/src/protocol.rs:146-154 | four bytes of length, most significant first, then the payload |
| `Framing.StreamRoundTripIff` | crates/p2p/src/protocol.rs:128-154 | a list of payloads is read back as exactly that list with the stream consumed if and only if each is within the limit and shorter than 2^32 |
| `Framing.WireDeterminesPayloads` | crates/p2p/src/protocol.rs:146-154 | the bytes on the wire determine the payloads and their number |

## Left out

- libp2p, mDNS, dialling and the swarm builder: a request is an arrival, a response handed to the transport counts as answered even if the transport then fails to deliver it.
- raft-rs: elections, log matching and the commit rule; committed batches are inputs, and what the discarded light ready may contain is not modelled.
- qlean, guest commands, image download, tar packing, SHA-256, zlib, JSON and protobuf: their outcomes are inputs, and encoders are assumed to round-trip.
- The event consumer: it is assumed to keep taking application events; a consumer that waits for the swarm loop while the loop waits for it is not modelled, nor is a dropped event receiver, which ends only the inner loop of `crates/p2p/src/swarm.rs:217-222`.
- Lock poisoning and panics other than a job's own.
- Two arrivals of the same node handled at once: arrivals are handled one at a time by the task that owns the swarm's events (`crates/node/src/bootstrap.rs:521`).
- BlobFetch.BlobFetcher.OnBlobReceived: states the arrival without anything interleaved; the interleaved form is the step relation that `BlobFetchSafety` reasons about. `ensure_blob` exists only as steps, because it suspends between its lock sections.
- ObjectStore.LocalObjectStore.WriteObject: writes are atomic with respect to readers; a reader that opens a file while it is being written is not modelled. Hashes shorter than two characters, on which `object_path` panics, are left out.
- ObjectStore.LocalObjectStore.ReadObject: the comparison of the object's own hash with its key is not modelled, because every whole file is written under the hash it carries.
- ObjectFormat.WriteTreeContent: the library's stable sort appears as an insertion sort; only its result matters.
- ObjectFormat.CommitContentInjective: timestamps are the digits of whole seconds in UTC, which is all the text contains.
- RaftStorage.CasRaftStorage.ReadEntries: the panic past the last index is a precondition of the method; in a run such a read changes nothing.
- RaftStorage.CasRaftStorage.Snapshot: the configuration in the metadata is left out, as are hard state and configuration state, which are stored and returned unchanged.
- ProjectClient.ProjectTracker.SubmitLocalProject: choosing the peer is an input.
- SandboxWorker.Worker.Run: the shutdown of a held machine when the job channel closes, and the wording of errors.
- PhaseBudget.JobEndsBy: counts the awaits that have a timeout; the liveness query, the removal of the old work directory and machine shutdown have none in the code and are taken to be instantaneous.
- PackFile.PackWriter.Flush: the in-memory objects keep their insertion order as in the code; concurrent flushes to the same paths are not modelled.
- Framing.Stream.ReadLengthPrefixed: transport errors other than the end of the stream.
- Mode parsing, image templates, exit codes, `boots_needed` (never called by the worker), tree diffs, gc, the CLI, bootstrap, IPC framing and configuration: short case analyses, stubs or wiring.
