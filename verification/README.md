# Verified model of a terminal lab platform

Students work in terminals of lab environments that run in Kubernetes. This project models five
parts of the platform and proves how they behave over all inputs, runs and interleavings.

* **Grading** (`Ansi`, `LineBuffer`, `LineByLine`, `Windows`, `Grading`, `Hiding`, `UncleanStreams`,
  `Broadcast`, `StaleSnapshot`, `GraderBackend`). Terminal output arrives in arbitrary chunks, is
  stripped of escape sequences (a subset of the control sequences of section 5.4 of ECMA-48), cut
  into lines and matched against templates in a window of ten lines; grades are sticky and are sent
  to clients that join and leave meanwhile. Stripping works incrementally on text already stripped;
  deletion of escape sequences is proved confluent, and from that follows exactly when chunk
  boundaries do not matter.
* **The life of an attempt** (`Lifecycle`, `Expiry`, `Creation`, `ForgottenLab`, `Controllers`,
  `Upstream`, `UpstreamRuns`, `CacheWitness`, `UpstreamReconciler`, `Provisioning`). A record, the
  controller that follows it, a LabEnvironment object with a finalizer, the operator and a
  namespace, stepping over shared objects with failing calls, stale copies and users in between.
* **Exercise blocks** (`Strings`, `Fences`, `Exercises`, `Parsing`, `Authoring`, `Ids`, `Reader`,
  `ReaderFields`, `RoundTrip`, `LabReading`, `Publishing`, `GradeKeys`). A synchroniser in one
  language extracts exercises and publishes placeholders; a frontend in another reads them with a
  different fence pattern.
* **Concurrency kernels** (`Limiter`, `Forwarder`). A per-user connection limit with a
  compare-and-swap loop; a bounded lossy queue with a reconnecting writer.
* **Smaller machines** (`Tabs`, `TabsShown`, `Sse`). Terminal tabs with their labels; a reader of
  server-sent events.

`Options` holds the usual option type. Where the code changes state step by step, a class does the
same and each of its methods is proved against a function of the old state; theorems about runs are
about those functions.

## Reading the model

* Regular expressions of exercise templates are predicates on the joined window; compiling one
  either gives such a predicate or fails. Outcomes of writes, dials, API calls, and the time are
  parameters of steps.
* `Lifecycle` takes one attempt. API reads are current; the operator has one worker, whose calls are
  separate steps; a fetch together with the reconcile of an attempt is one step, and so is each
  event handled upstream; the attempt is among those a resync lists (only one page is fetched,
  services/attempt-controller/internal/pocketbase/pbclient.go:169-187). Informer store and queue are
  one queue, and a resync of the store happens when it is empty. Looking for the namespace and
  creating it are one step, since nobody else creates it. People can only ask to decommission (as
  the frontend does; the hook in services/backend/pb_hooks/attempts.pb.js:1-19 would not stop them
  from asking for the opposite), and may apply or delete the LabEnvironment at any moment.
* The operator's work queue is one flag: a changed object, a reconcile that returns an error or asks
  to run again, and a wake-up at any moment (a pod event, a resync of its own cache) set it, and an
  idle operator picks it up. A request delayed by a time is in the queue at once.
* The cache-free upstream reconciler is given the same events, user requests and downstream marks as
  the cached one; it is not asked what it would have made the other controllers do.
* Recovery is stated as: from every state after the request there is a finite sequence of controller
  and cluster steps to the final state, each lowering a rank. That the scheduler takes such steps is
  not stated.
* Recovery and provisioning run in given circumstances: the time, the TTL a lab is applied with and
  the state of its assets at each step. Provisioning is stated for a time before the expiry and for
  assets that are ready.
* Times are integers of one unit; a TTL is added to the creation time.
* Text of exercise blocks has `\n` as its only line break, and space and tab as its only blanks.
  Each fence pattern is modelled as a leftmost search for the opener and then for the nearest
  closer.
* Where documentation and code disagree the code is followed: the phase `Terminating` makes the
  record `decommissioned` (services/attempt-controller/internal/upstream/reconcile.go:95-97, where
  services/attempt-controller/README.md:51 says `decommissioning`), and the forwarder's pause
  reaches 16 s although its maximum is declared as 10 s (services/relay/exec/forwarder.go:80).

## Model

| member | source | states |
|---|---|---|
| `Ansi.MatchLen` | services/relay/grader/lines.go:5 | the prefix found is an escape sequence, and the only one that starts there, so the pattern is never ambiguous |
| `Ansi.StripOfClean` | services/relay/grader/lines.go:9-11 | text without escape sequences is left as it is |
| `Ansi.StripSplit` | services/relay/grader/lines.go:9-11 | stripping distributes over a cut that no escape sequence crosses |
| `Ansi.StripStep` | services/relay/grader/lines.go:26-27 | stripping again what was stripped, with more text behind it, equals stripping the whole at once, as long as the first strip left nothing to strip |
| `Ansi.StripCleanPrefix` | services/relay/grader/lines.go:9-11 | if one pass cleans a text it cleans every prefix of it |
| `Ansi.Confluent` | services/relay/grader/lines.go:5-11 | deleting escape sequences in any order and any place is confluent: two deletion runs from one text can be continued to the same text, the only clean one reachable |
| `Ansi.ReachesStrip` | services/relay/grader/lines.go:9-11 | one left-to-right pass is such a deletion run |
| `Ansi.StripIsNormalFormIff` | services/relay/grader/lines.go:9-11 | one pass reaches the unique clean text exactly when what it leaves is clean |
| `LineBuffer.SplitLines` | services/relay/grader/lines.go:57-71 | empty text gives nothing; otherwise the complete lines followed by the unfinished one |
| `LineBuffer.JoinLines` | services/relay/grader/lines.go:78-87 | the lines with single breaks between them |
| `LineBuffer.AssetBuffer.constructor` | services/relay/grader/lines.go:17-20 | a new buffer holds nothing |
| `LineBuffer.AssetBuffer.Ingest` | services/relay/grader/lines.go:26-53 | the new partial line and window are those of the stripped partial plus chunk; the result says whether a line was completed |
| `LineBuffer.AssetBuffer.Joined` | services/relay/grader/lines.go:74-76 | the joined window; nothing changes |
| `LineBuffer.LinesKept` | services/relay/grader/lines.go:44-52 | the window changes only when a line is completed, then holds a line, and never exceeds ten |
| `LineBuffer.IngestStep` | services/relay/grader/lines.go:26-53 | from the buffer of a clean text, one chunk gives the buffer of the stripped longer text, and reports a completed line exactly when that text has more lines |
| `LineBuffer.ChunkInvariance` | services/relay/grader/lines.go:26-71 | for every chunking of a stream that strips clean in one pass, the buffer ends with the last at most ten complete lines of the stripped stream and its unfinished line |
| `LineBuffer.ChunkSafeIff` | services/relay/grader/lines.go:26-71 | all chunkings of all prefixes of a stream agree with the single chunk if and only if one pass strips the stream clean |
| `LineByLine.StripIsLineByLine` | services/relay/grader/lines.go:5-11 | escape sequences do not cross lines: stripping a text strips its lines |
| `LineByLine.StreamSafeIff` | services/relay/grader/lines.go:26-71 | for one given stream: all its chunkings end in the same buffer if and only if the window and the unfinished line left by one chunk hold no escape sequence, also if every chunk must bring something; unclean lines that have left the window do no harm |
| `LineBuffer.ChunkingCounterexample` | services/relay/grader/lines.go:26-28 | eight bytes that give different buffers as six and two and as eight: unconditional chunk invariance is false |
| `Windows.CutOfJoin` | services/relay/grader/lines.go:57-87 | cutting undoes joining: the text joined of some lines shows exactly these lines, in order |
| `Windows.JoinOfCut` | services/relay/grader/lines.go:57-87 | joining undoes cutting |
| `Windows.WindowShowsLines` | services/relay/grader/lines.go:26-87 | in every run the text a template sees shows the lines of the window, each for itself |
| `Grading.CompiledOwn` | services/relay/grader/backend.go:52-59 | with distinct ids, a task is matched with its own compiled template, and has one exactly when its template compiles |
| `Grading.StepPassesOwn` | services/relay/grader/backend.go:87-114 | an event passes a task exactly when it completes a line and a relevant window then matches its valid template |
| `Grading.PassedExactly` | services/relay/grader/backend.go:73-119 | with distinct ids, a task is graded true after a run exactly when some event of the run passed it |
| `Grading.BroadcastsRise` | services/relay/grader/backend.go:87-118 | each broadcast is strictly above the one before, the last one is the current grade map, and a run makes at most one broadcast per graded task |
| `Grading.RunMissesNothing` | services/relay/grader/backend.go:88-114 | after every event no unpassed valid task matches a relevant buffer that holds a line |
| `Grading.FullScanExactly` | services/relay/grader/backend.go:106-113 | the lab-wide scan passes an unpassed task exactly when the changed window matches, or the template matches the empty text and some asset has no line yet |
| `Grading.LocalScanSuffices` | services/relay/grader/backend.go:106-113 | if no lab-wide template matches the empty text, scanning only the changed buffer grades every run alike |
| `Grading.RefiningKeepsPasses` | services/relay/grader/backend.go:73-119 | for clean streams, cutting events into smaller ones for the same asset never loses a pass |
| `Windows.GradedByStreams` | services/relay/grader/backend.go:73-119 | for clean streams a grade in terms of the streams alone: true exactly if the template compiles and, at some event that brought its asset a further line, it matched the last ten lines of the asset it names or, if it names none, of some asset |
| `UncleanStreams.CuttingLoses` | services/relay/grader/backend.go:73-119 | that hypothesis is needed: a stream that one pass does not strip clean passes a task as one event and fails it as two |
| `Hiding.WindowAfter` | services/relay/grader/lines.go:48-51 | ten more lines in the same chunk push a line out of the window before it is ever matched |
| `Hiding.CuttingGains` | services/relay/grader/backend.go:83-114 | for every such line there is output that fails as one chunk and passes when cut after the line: the order in RefiningKeepsPasses is strict |
| `Broadcast.NextKeepsInv` | services/relay/grader/backend.go:116-183 | every ingest, join, snapshot write, failure and departure keeps each client's messages in line with the grades |
| `Broadcast.ExecKeepsInv` | services/relay/grader/backend.go:116-183 | so it holds in every interleaving |
| `Broadcast.ClientsAreCurrent` | services/relay/grader/backend.go:126-183 | for every registered client whose snapshot write has not failed, the pointwise OR of its snapshot, sent or still pending, and of all pushes it got is the current grade map |
| `Broadcast.LostClientsCurrentIff` | services/relay/grader/backend.go:164-170 | a client whose snapshot write failed and which is not yet removed got only the pushes; they give the current map if and only if there was one, or nothing is passed |
| `Broadcast.LastMessageCurrentIff` | services/relay/grader/backend.go:157-164 | the last message of a client is the current map unless its snapshot, taken under the lock but written after it, came behind a push: exactly then it is stale |
| `Broadcast.RegisteredUntil` | services/relay/grader/backend.go:126-176 | a registered client stays so until it leaves or a push to it fails, and is pushed the new grades, and nothing else, whenever they change |
| `Broadcast.Registers` | services/relay/grader/backend.go:150-160 | a new client is registered at once |
| `Broadcast.OthersGetNothing` | services/relay/grader/backend.go:126-176 | clients that left, or whose push failed, are pushed nothing |
| `Broadcast.SnapshotOutcome` | services/relay/grader/backend.go:157-170 | the snapshot is written once, behind what was pushed before, or lost for good |
| `StaleSnapshot.LastMessageCanBeStale` | services/relay/grader/backend.go:157-164 | a run on which it is stale: a join, a push, then the snapshot |
| `GraderBackend.Backend.constructor` | services/relay/grader/backend.go:46-61 | no asset, no grade, no client; templates that do not compile are left out |
| `GraderBackend.Backend.AnyWindowMatches` | services/relay/grader/backend.go:107-113 | true exactly when some window matches |
| `GraderBackend.Backend.TaskMatches` | services/relay/grader/backend.go:92-113 | true exactly when a scoped task matches the changed window or a lab-wide one any window |
| `GraderBackend.Backend.RescanTask` | services/relay/grader/backend.go:88-113 | grades grow by that task, or not at all if it had passed, is invalid or does not match |
| `GraderBackend.Backend.Rescan` | services/relay/grader/backend.go:87-114 | grades grow by exactly the newly hit tasks; the result says whether they grew |
| `GraderBackend.Backend.IngestChunk` | services/relay/grader/backend.go:78-85 | only the buffer of the asset changes, created if it is new |
| `GraderBackend.Backend.GradesLocked` | services/relay/grader/backend.go:141-147 | a value for every task id, true for those passed |
| `GraderBackend.Backend.WriteToEach` | services/relay/grader/backend.go:132-136 | every client whose write works gets the payload last, the others leave |
| `GraderBackend.Backend.BroadcastLocked` | services/relay/grader/backend.go:126-137 | the same for the registered clients and the current grades |
| `GraderBackend.Backend.RescanAndSend` | services/relay/grader/backend.go:87-118 | clients hear of it only if a grade changed |
| `GraderBackend.Backend.Ingest` | services/relay/grader/backend.go:73-119 | the whole state becomes that of the step machine after the ingest step |
| `GraderBackend.Backend.ServeRegister` | services/relay/grader/backend.go:157-160 | registration with the snapshot of that moment |
| `GraderBackend.Backend.ServeSnapshot` | services/relay/grader/backend.go:164-166 | the snapshot is written after whatever was pushed meanwhile, or fails |
| `GraderBackend.Backend.ServeDeregister` | services/relay/grader/backend.go:166-176 | the client leaves, nothing else changes |
| `Lifecycle.NextKeepsInv` | services/labenv-operator/internal/controller/labenvironment_controller.go:49-251 | every step of users, controllers, API server, operator and cluster keeps the invariant about objects, worker, event log, cache and record |
| `Lifecycle.ExecKeepsInv` | services/labenv-operator/internal/controller/labenvironment_controller.go:49-251 | so it holds over every interleaving |
| `Lifecycle.NamespaceOwned` | services/labenv-operator/internal/controller/labenvironment_controller.go:64-72 | in every reachable state the namespace exists only while its LabEnvironment exists and carries the finalizer |
| `Lifecycle.DeleteAsksAgain` | services/labenv-operator/internal/controller/labenvironment_controller.go:214-251 | a deletion reconcile comes to rest for good exactly when it removed the finalizer and with it the object; otherwise the object is queued again |
| `Lifecycle.NoWorkIsLost` | services/labenv-operator/internal/controller/labenvironment_controller.go:558-570 | while the object exists, a resting operator has it in its queue, and so has a busy one whose copy is no longer current |
| `Lifecycle.PhaseIsReported` | services/labenv-operator/internal/controller/labenvironment_controller.go:141-158 | the phase written is that of the status a provisioning run reports |
| `Lifecycle.DecommissionSticksForever` | services/attempt-controller/internal/downstream/reconcile.go:123-162 | no writer takes a decommissioning request back |
| `Lifecycle.ExpiryIsFixed` | services/labenv-operator/internal/controller/labenvironment_controller.go:76-79 | once stored, the expiry of an object never changes, whatever TTL is applied |
| `Expiry.StoredExpiry` | services/labenv-operator/internal/controller/labenvironment_controller.go:76-79 | over every run, every stored expiry is its object's creation time plus a TTL that object has had |
| `Expiry.ExpiryCheck` | services/labenv-operator/internal/controller/labenvironment_controller.go:76-88 | over every run, a successful expiry check goes on exactly if the time is not past the stored expiry or, with none stored, the creation time plus a TTL the object has had, and then with that expiry; otherwise the reconcile is finished and the object is being deleted |
| `Expiry.ExpiredIsDeleted` | services/labenv-operator/internal/controller/labenvironment_controller.go:64-88 | so one undisturbed reconcile of an expired environment ends with its deletion |
| `Creation.ResyncApplies` | services/attempt-controller/internal/downstream/reconcile.go:123-162 | a resync of an attempt that is to exist and does not stand as asked for leaves an object with the given TTL: a new one created now if there was none, otherwise the same one, stored anew only if its TTL differs |
| `Creation.EventApplies` | services/attempt-controller/cmd/main.go:77-110 | so does an event about such an attempt, once it is fetched |
| `Creation.NothingApplied` | services/attempt-controller/cmd/main.go:83-91 | nothing happens if it cannot be fetched or the call fails |
| `Creation.EventRemoves` | services/attempt-controller/cmd/main.go:77-110 | an attempt to be gone, or not found, has its object deleted or marked for it; without an object the record is marked |
| `Creation.ResyncRemoves` | services/attempt-controller/internal/downstream/reconcile.go:123-139 | so does a resync |
| `Creation.ResyncLeaves` | services/attempt-controller/internal/downstream/reconcile.go:153-162 | a resync leaves an attempt alone that stands as asked for |
| `Creation.ProvisionLowersRank` | services/attempt-controller/internal/downstream/reconcile.go:141-162 | for a wanted attempt of which nothing is being deleted, an enabled step of the system lowers a well-founded rank until the object exists and is ready, the namespace is active, all events are handled and the record says provisioned, as long as the time is not past its expiry and the assets are ready |
| `Creation.ProvisioningCompletes` | services/labenv-operator/internal/controller/labenvironment_controller.go:64-189 | so for any such course of circumstances such steps alone lead there |
| `Creation.NewAttemptIsProvisioned` | services/attempt-controller/internal/downstream/reconcile.go:123-162 | in particular from the start |
| `Creation.ProvisioningIff` | services/attempt-controller/internal/downstream/reconcile.go:123-162 | exactly when steps of the system, without events about the record and without failing patches, can still lead there: not if a deletion is under way or queued, nor if the object is gone while the record says it is there |
| `ForgottenLab.DeletedByHand` | services/attempt-controller/internal/upstream/reconcile.go:78-88 | a run to the first case: an object deleted by hand decommissions a wanted attempt |
| `ForgottenLab.NobodyNotices` | services/attempt-controller/internal/downstream/reconcile.go:153-162 | a run to the second: after two failed patches the object is gone, the record says provisioned, and no resync looks at it again |
| `Lifecycle.RepairLowersRank` | services/attempt-controller/internal/downstream/reconcile.go:123-162 | after the request every state short of the final one has an enabled controller or cluster step that lowers a well-founded rank, whatever the time, the TTL and the state of the assets |
| `Lifecycle.Recovery` | services/attempt-controller/internal/upstream/reconcile.go:33-88 | so for any given course of times, TTLs and asset reports such steps alone, each enabled when taken, lead to the end: object and namespace gone, events drained, record decommissioned |
| `Lifecycle.DecommissionCompletes` | services/attempt-controller/cmd/main.go:77-110 | from the start, through any run, the request, any further steps and failed calls, recovery remains possible under any course of circumstances |
| `Lifecycle.FinalIsStable` | services/attempt-controller/internal/downstream/reconcile.go:153-162 | no controller or cluster step leaves the final state |
| `Controllers.Cluster.ReconcileAttempt` | services/attempt-controller/internal/downstream/reconcile.go:123-151 | apply, delete, or mark the record when there is nothing to delete, each with what it leaves; a failed call changes nothing |
| `Controllers.Cluster.OnRecordEvent` | services/attempt-controller/cmd/main.go:77-110 | what the subscription lets through, and with which record: fetched anew, to be decommissioned if not found, none if it cannot be fetched |
| `Controllers.Cluster.ResyncAttempts` | services/attempt-controller/internal/downstream/reconcile.go:153-162 | only a record whose current and desired state differ is reconciled |
| `Controllers.Cluster.ReconcileDelete` | services/labenv-operator/internal/controller/labenvironment_controller.go:214-251 | with arbitrary steps of others before each call, the state is that after exactly the turns taken, which are the lookup, the lookup and one call, or the lookup, the namespace deletion and the status update, as the outcome says; done for good only with the object gone or without the finalizer |
| `Controllers.Cluster.ReconcileCreate` | services/labenv-operator/internal/controller/labenvironment_controller.go:64-189 | likewise for creation: its turns in order as far as it gets, three if it is finished because expired, all four if it asks to run again |
| `Controllers.AfterIsRun` | services/labenv-operator/internal/controller/labenvironment_controller.go:49-251 | turns are a run of the step machine: the steps of others in them, and for each its own step of the operator |
| `Controllers.Cluster.Fetch` | services/labenv-operator/internal/controller/labenvironment_controller.go:49-61 | nothing to do without an object; what was fetched decides between deletion and creation |
| `Controllers.Cluster.LookAtNamespace` | services/labenv-operator/internal/controller/labenvironment_controller.go:214-235 | nothing to do without the finalizer; then the namespace decides what comes next |
| `Controllers.Cluster.Reconcile` | services/labenv-operator/internal/controller/labenvironment_controller.go:49-61 | a whole request from the queue is a run of the step machine: the fetch and, if there is an object, exactly the turns of a deletion or of a creation as the object fetched says, in their order and with their outcome |
| `Controllers.Cluster.EnsureFinalizer` | services/labenv-operator/internal/controller/labenvironment_controller.go:253-259 | nothing is written if the finalizer is there; it is added to a current object; a stale copy fails |
| `Controllers.Cluster.EnsureNamespace` | services/labenv-operator/internal/controller/labenvironment_controller.go:261-292 | an existing namespace is left alone, a missing one is created |
| `Controllers.Cluster.CheckExpiry` | services/labenv-operator/internal/controller/labenvironment_controller.go:76-88 | the expiry is the stored one or creation time plus TTL; the reconcile goes on with it exactly if the time is not past it, otherwise the object is deleted or marked for it and the reconcile is finished |
| `Controllers.Cluster.WriteStatus` | services/labenv-operator/internal/controller/labenvironment_controller.go:177-189 | a current object gets the phase of the reports, the expiry and the reports, under a new version only if that changes it; a conflict asks to run again without writing |
| `Controllers.Cluster.RemoveFinalizer` | services/labenv-operator/internal/controller/labenvironment_controller.go:224-231 | done only if the object is gone, an error otherwise |
| `Controllers.Cluster.RequestNamespaceDeletion` | services/labenv-operator/internal/controller/labenvironment_controller.go:236-241 | the namespace starts to close or the call fails |
| `Controllers.Cluster.MarkTerminating` | services/labenv-operator/internal/controller/labenvironment_controller.go:243-250 | a failed status update is passed over; the reconcile asks to run again in any case |
| `Controllers.LookDoes` | services/labenv-operator/internal/controller/labenvironment_controller.go:214-235 | exactly what the lookup of a deletion leads to; it writes nothing |
| `Controllers.DeleteNamespaceDoes` | services/labenv-operator/internal/controller/labenvironment_controller.go:236-241 | the namespace closes or, if the call fails, stays, and the reconcile fails |
| `Controllers.MarkDoes` | services/labenv-operator/internal/controller/labenvironment_controller.go:243-250 | the phase is written to a current object that has it not yet, nothing otherwise |
| `Controllers.ReleaseDoes` | services/labenv-operator/internal/controller/labenvironment_controller.go:222-231 | the object goes, with an event, or nothing changes and the reconcile fails |
| `Upstream.CacheIsExactIff` | services/attempt-controller/internal/upstream/reconcile.go:33-88 | over any consistent event sequence with failed patches, requests and downstream marks, the record equals the one a cache-free reconciler leaves in desired state, assets and expiry; the current states differ, the cached one then being decommissioned, if and only if a mark was followed by a skipped version whose phase shows the attempt alive, with no patch since that mark and no mark since that version |
| `Upstream.ModeMeans` | services/attempt-controller/internal/upstream/reconcile.go:33-88 | that condition, read off positions in the sequence, is what a three-state observer of it finds |
| `Upstream.LastReportShown` | services/attempt-controller/internal/upstream/reconcile.go:33-155 | the record shows, asset by asset, the name, state, power and protocols of the last version whose patch went through, its expiry, and its phase unless a mark or a deletion came later |
| `Upstream.DeletionShown` | services/attempt-controller/internal/upstream/reconcile.go:78-88 | after a deletion whose patch went through the attempt is wanted no more, and stands as decommissioned until a later version is reported |
| `Upstream.DesiredShown` | services/attempt-controller/internal/upstream/reconcile.go:78-88 | only people and deletions ask for an attempt to go |
| `Upstream.ExpiryWrittenOnce` | services/attempt-controller/internal/upstream/reconcile.go:47-75 | once an expiry is written none is written again before the object is deleted, whatever versions come |
| `UpstreamRuns.HistoryIsConsistent` | services/labenv-operator/internal/controller/labenvironment_controller.go:76-79 | every event log the machine can produce is consistent: between Delete events a version names one object, and its expiry stays |
| `UpstreamRuns.CacheIsExactOnRunsIff` | services/attempt-controller/internal/upstream/reconcile.go:33-88 | on every run of the machine the cached reconciler writes the record of the machine, and the same exact condition holds |
| `CacheWitness.CacheMatters` | services/attempt-controller/internal/downstream/reconcile.go:126-134 | a run on which it happens: a version queued again by the informer arrives after the record was marked and is skipped |
| `UpstreamReconciler.PatchOfRaw` | services/attempt-controller/internal/upstream/reconcile.go:41-63 | the status the operator writes is read as the patch it means |
| `UpstreamReconciler.RawPatchShown` | services/attempt-controller/internal/upstream/reconcile.go:33-155 | any status, of whatever form: a patch exactly if it names a phase, showing that phase, in order the entries of its assets that have fields, and its expiry if it is a date |
| `UpstreamReconciler.TextsAt` | services/attempt-controller/internal/upstream/reconcile.go:138-145 | of a list of protocols exactly the texts are taken, in order |
| `UpstreamReconciler.Reconciler.constructor` | services/attempt-controller/internal/upstream/reconcile.go:24-30 | empty caches |
| `UpstreamReconciler.Reconciler.ReconcileLabEnv` | services/attempt-controller/internal/upstream/reconcile.go:33-75 | the attempt and its cache entries change as one cached sync of the untyped status, other attempts not at all |
| `UpstreamReconciler.Reconciler.BuildPatch` | services/attempt-controller/internal/upstream/reconcile.go:41-63 | no patch without a phase; the expiry only if it was not written, is there and parses |
| `UpstreamReconciler.Reconciler.ReconcileDelete` | services/attempt-controller/internal/upstream/reconcile.go:78-88 | cache entries go first, then both states become decommissioned unless the patch fails |
| `UpstreamReconciler.Reconciler.BuildAssets` | services/attempt-controller/internal/upstream/reconcile.go:127-155 | one view for each entry that has fields, in order, with the mapped state and status; anything else is passed over |
| `UpstreamReconciler.Reconciler.BuildProtocols` | services/attempt-controller/internal/upstream/reconcile.go:138-145 | the texts in the list, in order |
| `Provisioning.ContainerReason` | services/labenv-operator/internal/controller/labenvironment_controller.go:191-201 | the reason of the first container that waits or has terminated |
| `Provisioning.IsPodReady` | services/labenv-operator/internal/controller/labenvironment_controller.go:204-211 | true exactly when the first readiness condition says so |
| `Provisioning.Operator.EnsurePod` | services/labenv-operator/internal/controller/labenvironment_controller.go:457-527 | an existing pod is kept, a missing one is created; exactly which failures stop it |
| `Provisioning.Operator.EnsureHeadlessService` | services/labenv-operator/internal/controller/labenvironment_controller.go:529-556 | creation is always tried; that the service exists already is passed over and keeps it, whatever it selects; any other failure stops the run, with or without the service |
| `Provisioning.Operator.AssetReport` | services/labenv-operator/internal/controller/labenvironment_controller.go:113-134 | what the status says of an asset, also when its pod cannot be read back |
| `Provisioning.Operator.EnsureAssets` | services/labenv-operator/internal/controller/labenvironment_controller.go:106-139 | exactly which failures stop it; after the loop every asset has its pod and service and every report is about what is there at the end; on an error nothing that existed has changed |
| `Provisioning.Operator.Summarize` | services/labenv-operator/internal/controller/labenvironment_controller.go:141-175 | ready count, its text, the phase, and who is waited for, from the reports in spec order |
| `Provisioning.PhaseMeans` | services/labenv-operator/internal/controller/labenvironment_controller.go:141-175 | ready exactly if all assets are, also with none; pending exactly if there are some and none is; degraded otherwise; and it waits for as many as are not ready |
| `Provisioning.SummaryTells` | services/labenv-operator/internal/controller/labenvironment_controller.go:141-175 | the counts of all and of ready assets, also as text, the reports themselves, and a line for each asset that is not ready, in order |
| `Provisioning.ReportsTell` | services/labenv-operator/internal/controller/labenvironment_controller.go:113-134 | one report for each asset in order, telling the phase, reason and readiness of its pod, or that it is pending if the pod could not be read |
| `Provisioning.ReasonIs` | services/labenv-operator/internal/controller/labenvironment_controller.go:191-201 | the reason is that of the first container that does not run, empty if all run |
| `Provisioning.CreatesExactly` | services/labenv-operator/internal/controller/labenvironment_controller.go:92-139 | a run without error adds exactly the pods of the assets, their services and the two of the relays |
| `Provisioning.Operator.Provision` | services/labenv-operator/internal/controller/labenvironment_controller.go:92-182 | exactly which failures stop a run; one without leaves what was there plus what was missing, and the status of it; a failing one stays between the two and leaves the status alone |
| `Provisioning.Operator.ProvisionTwice` | services/labenv-operator/internal/controller/labenvironment_controller.go:92-182 | a second run on the unchanged world creates nothing, whatever calls fail, and writes the same status if the same pods can be read back |
| `Provisioning.NothingMoreToCreate` | services/labenv-operator/internal/controller/labenvironment_controller.go:92-112 | provisioning is idempotent |
| `Provisioning.HeadlessIff` | services/labenv-operator/internal/controller/labenvironment_controller.go:529-556 | every asset gets its pod, and its headless service exactly when its name is not that of a relay service |
| `Fences.AssembleSplit` | scripts/labs_sync_exercises.py:7 | the blocks found and the text between them, put together again, are the text |
| `Fences.SplitAssemble` | scripts/labs_sync_exercises.py:7 | well-formed blocks put together are found again, followed by whatever the tail holds |
| `Fences.SplitIsWellFormed` | scripts/labs_sync_exercises.py:7 | what is found is well formed, and nothing is left to find in the tail |
| `Exercises.NoteAllIsLast` | scripts/labs_sync_exercises.py:25-34 | trying the labels line by line gives each field its last line |
| `Exercises.ScanFields` | scripts/labs_sync_exercises.py:21-38 | the loop stops at the template line with the fields of the lines before it |
| `Exercises.ParseExerciseBlock` | scripts/labs_sync_exercises.py:10-48 | the fields, or the first missing one in the order description, type, template |
| `Authoring.ParseWritten` | scripts/labs_sync_exercises.py:10-48 | whatever fields an author writes down, with or without an asset, the parser returns them, the template to the letter |
| `Parsing.ParseIs` | scripts/labs_sync_exercises.py:10-48 | any body: refused without a description, else without a type, else without a template line; otherwise the trimmed values of the last lines with their labels before that line, and all that follows it |
| `Parsing.ParseReads` | scripts/labs_sync_exercises.py:10-48 | every body has such values |
| `Strings.TrimParts` | scripts/labs_sync_exercises.py:28 | trimming takes off white space at both ends and nothing else |
| `Exercises.ExtractCounts` | scripts/labs_sync_exercises.py:57-66 | exercises are those of the blocks in order, numbered from one |
| `Exercises.ExtractTaskExercises` | scripts/labs_sync_exercises.py:59-65 | the exercises of one text, or its first block that does not parse |
| `Exercises.ExtractExercises` | scripts/labs_sync_exercises.py:51-66 | those of all texts, or the first failure with both numbers |
| `Parsing.FailsAtFirst` | scripts/labs_sync_exercises.py:51-66 | extraction succeeds exactly if every block of every text parses; otherwise it names the first one that does not, by both numbers and its fault |
| `Ids.LabExercise` | scripts/labs_sync_exercises.py:51-66 | over a whole lab, exercises stand in the order of texts and blocks, and the one of block k in text t has that block's fields and the id "t.k", both numbers in decimal without leading zeros |
| `Ids.LabPublished` | scripts/labs_sync_exercises.py:81-97 | the rewritten texts publish for the same block the same numbers and its description |
| `Exercises.RewriteTask` | scripts/labs_sync_exercises.py:86-96 | every block replaced by its placeholder under the number extraction gave it; fails exactly when extraction does |
| `Exercises.RewriteContent` | scripts/labs_sync_exercises.py:81-97 | the same for a whole lab |
| `Reader.NextBlock` | services/frontend/src/lib/exercises.js:7-12 | one turn of the reader's loop |
| `Reader.ParseExerciseBlocks` | services/frontend/src/lib/exercises.js:3-15 | the loop reads every block, passing over those without both fields |
| `Reader.ReadsPlaceholder` | services/frontend/src/lib/exercises.js:9-12 | a whole placeholder is read as its id and description |
| `Reader.ReadsCutPlaceholder` | services/frontend/src/lib/exercises.js:9-12 | one cut off inside its description is read with the right id and another description |
| `ReaderFields.ReadFieldIs` | services/frontend/src/lib/exercises.js:9-12 | for any body: a field is read from the first line that starts with its label and has a value after it, and is missing exactly if there is none |
| `ReaderFields.ValueOnce` | services/frontend/src/lib/exercises.js:9-12 | what follows a label determines the value |
| `ReaderFields.ReadBlockIs` | services/frontend/src/lib/exercises.js:9-12 | a block is shown exactly if it has an id and a description, and with these |
| `RoundTrip.ParseBodyIsGood` | scripts/labs_sync_exercises.py:40-48 | an accepted description is a single trimmed line that is not empty |
| `RoundTrip.SyncCloses` | scripts/labs_sync_exercises.py:7 | for the synchroniser's pattern a placeholder always ends where it should |
| `RoundTrip.ReaderCloses` | services/frontend/src/lib/exercises.js:1 | for the reader's pattern it does if the description holds no triple backtick |
| `RoundTrip.RoundTripIff` | services/frontend/src/lib/exercises.js:1-15 | reading a rewritten text gives the extracted pairs in order and then what its tail holds, if and only if no description holds a triple backtick |
| `RoundTrip.RoundTripExactIff` | services/frontend/src/lib/exercises.js:1-15 | the pairs and nothing else, if and only if no description holds a triple backtick and the tail shows nothing |
| `RoundTrip.RoundTripExact` | services/frontend/src/lib/exercises.js:1-15 | in particular with no opener in the tail |
| `Publishing.WrittenCloses` | scripts/labs_sync_exercises.py:7 | a body none of whose later lines starts with a fence is found whole |
| `Publishing.PublishedIff` | scripts/labs_sync_exercises.py:51-97 | a block an author writes is extracted with its fields, and its published form shows the frontend its id and description if and only if the description holds no triple backtick |
| `Publishing.FencedDescriptionIsLost` | services/frontend/src/lib/exercises.js:1-15 | such a description can be written, and the frontend shows something else |
| `LabReading.ReaderShowsNoTicks` | services/frontend/src/lib/exercises.js:1-15 | no description the frontend shows of any text holds a triple backtick |
| `LabReading.LabRoundTripIff` | scripts/labs_sync_exercises.py:51-97 | over a whole lab the frontend finds exactly the exercises the synchroniser extracted if and only if no description holds a triple backtick and the tail of no task shows anything: a block too many in one task cannot make up for one missing in another |
| `RoundTrip.LabRoundTrip` | scripts/labs_sync_exercises.py:51-97 | in particular with no opener in any tail |
| `RoundTrip.RewritingKeepsText` | scripts/labs_sync_exercises.py:81-97 | all text outside the blocks is kept, and the blocks stay apart |
| `RoundTrip.RewritingHidesFields` | scripts/labs_sync_exercises.py:81-97 | texts that differ only in type, asset and template inside their blocks are rewritten to the same text |
| `RoundTrip.IdsDistinct` | scripts/labs_sync_exercises.py:65 | printed ids determine both numbers |
| `RoundTrip.ExtractedIds` | scripts/labs_sync_exercises.py:57-66 | over a whole lab all ids differ |
| `GradeKeys.OneKeyPerExercise` | services/relay/grader/backend.go:141-147 | tasks built from the exercises of a lab have distinct ids, and the grade map has exactly one key for each exercise |
| `Limiter.NextKeepsInv` | services/relay/pkg/relaybase/limiter.go:24-53 | every atomic step of any thread keeps the counters right |
| `Limiter.CounterIsSessions` | services/relay/pkg/relaybase/limiter.go:24-53 | in every interleaving a user's counter is the number of sessions held, within 0 and the limit |
| `Limiter.RefusedIff` | services/relay/pkg/relaybase/limiter.go:34-38 | an acquire is refused exactly when the limit was held at its load |
| `Limiter.SwapWinsIff` | services/relay/pkg/relaybase/limiter.go:39-41 | a swap takes effect exactly if the counter is what the thread had loaded |
| `Limiter.AcquireAlone` | services/relay/pkg/relaybase/limiter.go:24-43 | an acquire that nobody disturbs holds a session exactly if fewer than the limit were held, and is refused otherwise |
| `Limiter.ReleaseAlone` | services/relay/pkg/relaybase/limiter.go:45-53 | a release gives its own session back and no other |
| `Limiter.CellsStay` | services/relay/pkg/relaybase/limiter.go:25-32 | a user's counter cell is never replaced |
| `Limiter.NobodyIsStuck` | services/relay/pkg/relaybase/limiter.go:24-53 | a thread under way always has a next step |
| `Limiter.RetriesArePaid` | services/relay/pkg/relaybase/limiter.go:34-42 | each retry of a thread is paid for by a counter change that took effect: the loop is lock-free |
| `Limiter.ConnLimiter.FindCounter` | services/relay/pkg/relaybase/limiter.go:25-32 | one step of the machine: lookup or creation under the lock |
| `Limiter.ConnLimiter.LoadCounter` | services/relay/pkg/relaybase/limiter.go:35-38 | one step: the load, refusing exactly at the limit |
| `Limiter.ConnLimiter.Swap` | services/relay/pkg/relaybase/limiter.go:39-41 | one step: the compare-and-swap |
| `Limiter.ConnLimiter.FindForRelease` | services/relay/pkg/relaybase/limiter.go:46-49 | one step; the counter is always found |
| `Limiter.ConnLimiter.AddMinusOne` | services/relay/pkg/relaybase/limiter.go:50-52 | one step: the decrement |
| `Limiter.ConnLimiter.Total` | services/relay/pkg/relaybase/limiter.go:56-64 | with steps of other threads before each load, the total is the number of sessions held at the start, less at most what was released and more by at most what was acquired meanwhile: without such steps exactly that number |
| `Forwarder.ExecKeepsInv` | services/relay/exec/forwarder.go:57-131 | the invariant of queue, losses, wire and pause over every interleaving |
| `Forwarder.NothingVanishes` | services/relay/exec/forwarder.go:57-66 | accepted messages are written, lost, not encodable, in hand or queued, and the queue holds at most 256 |
| `Forwarder.SendIsTakenIff` | services/relay/exec/forwarder.go:57-66 | a message is taken, at the end of the queue, exactly if there is an address and fewer than 256 wait |
| `Forwarder.AllIsWritten` | services/relay/exec/forwarder.go:76-131 | while the network works, all that waits is written, in order and without a loss |
| `Forwarder.CloseEnds` | services/relay/exec/forwarder.go:79-131 | once closed, the loop can leave after what it is doing without taking a further message |
| `Forwarder.NothingWithoutAddress` | services/relay/exec/forwarder.go:33-52 | without an address nothing is ever taken or dialed |
| `Forwarder.NewForwarderWrites` | services/relay/exec/forwarder.go:37-131 | with one, what is sent to a new forwarder is written once the network works |
| `Forwarder.WrittenInOrder` | services/relay/exec/forwarder.go:111-131 | connections are given an in-order, duplicate-free subsequence of what was accepted, one connection after the other |
| `Forwarder.OneLossPerConnection` | services/relay/exec/forwarder.go:108-129 | a connection loses at most one message, none while it is in use |
| `Forwarder.PauseAfterFailures` | services/relay/exec/forwarder.go:79-102 | the pause after the n-th failed dial in a row is 500 ms doubled min(n - 1, 5) times, up to 16 s |
| `Forwarder.SilentAfterExit` | services/relay/exec/forwarder.go:72-75 | once the loop has exited, which is when Close returns, nothing is dialed, taken or written |
| `Forwarder.NoDialAfterClose` | services/relay/exec/forwarder.go:83-89 | after Close is called no further dial begins |
| `Forwarder.Forwarder.constructor` | services/relay/exec/forwarder.go:37-52 | a loop runs exactly if there is an address |
| `Forwarder.Forwarder.Enqueue` | services/relay/exec/forwarder.go:57-66 | one step of the machine; a full queue or a missing address drops the message |
| `Forwarder.Forwarder.RequestClose` | services/relay/exec/forwarder.go:72-73 | one step |
| `Forwarder.Forwarder.CheckClosed` | services/relay/exec/forwarder.go:83-89 | one step: leave or dial |
| `Forwarder.Forwarder.DialReturns` | services/relay/exec/forwarder.go:89-103 | one step: drain with the pause reset, or pause |
| `Forwarder.Forwarder.Pause` | services/relay/exec/forwarder.go:92-100 | one step: leave, or double the pause below the maximum and go round |
| `Forwarder.Forwarder.PickNext` | services/relay/exec/forwarder.go:114-121 | one step: notice the close or take a message |
| `Forwarder.Forwarder.WriteReturns` | services/relay/exec/forwarder.go:122-129 | one step: written, or lost with the connection |
| `Tabs.StripNumbered` | services/frontend/src/composables/useTerminalTabs.js:37 | stripping a numbered title gives back the name, whatever the name ends in |
| `Tabs.NameRecovered` | services/frontend/src/composables/useTerminalTabs.js:33-37 | so closing relabels a group of two or more with its own server name |
| `Tabs.OpenedKeepsInv` | services/frontend/src/composables/useTerminalTabs.js:20-31 | opening keeps ids unique, at most sixteen tabs, and every group right |
| `Tabs.ClosedKeepsInv` | services/frontend/src/composables/useTerminalTabs.js:33-41 | so does closing |
| `Tabs.MovedKeepsInv` | services/frontend/src/composables/useTerminalTabs.js:43-51 | so does moving, which permutes a group's labels |
| `Tabs.SplicedPlaces` | services/frontend/src/composables/useTerminalTabs.js:49-50 | the moved tab arrives at the target's place and the others keep their order |
| `Tabs.ExecKeepsInv` | services/frontend/src/composables/useTerminalTabs.js:11-61 | the invariant over every sequence of operations: a single tab of a server and kind bears the bare name, n of them the numbers 1 to n in some order |
| `Tabs.ActiveKept` | services/frontend/src/composables/useTerminalTabs.js:11-61 | every operation keeps the active tab right, except selecting an id no tab has: exactly then it is wrong |
| `Tabs.ExecKeepsActive` | services/frontend/src/composables/useTerminalTabs.js:11-61 | so with selections of open tabs, none is active exactly when there is none, and else the active one exists |
| `TabsShown.TitlesShown` | services/frontend/src/composables/useTerminalTabs.js:11-61 | in every reachable state one tab of a server and kind bears the bare name; of several, each bears the name with a decimal number from one to their count, and each number is borne |
| `TabsShown.OpenShown` | services/frontend/src/composables/useTerminalTabs.js:20-31 | opening adds one tab at the end, with an id no tab has, makes it active and numbers its group from left to right; at sixteen tabs there is only the message |
| `TabsShown.CloseShown` | services/frontend/src/composables/useTerminalTabs.js:33-41 | closing takes out that tab only and numbers its group from left to right under its server's name; the last tab becomes active if the closed one was |
| `TabsShown.CloseNone` | services/frontend/src/composables/useTerminalTabs.js:33-41 | closing a tab that is not there changes no tab |
| `TabsShown.MoveShown` | services/frontend/src/composables/useTerminalTabs.js:43-51 | moving puts the tab at the target's place, keeps the others in order and changes nothing else |
| `TabsShown.MoveNone` | services/frontend/src/composables/useTerminalTabs.js:43-48 | nor does it change anything if an id is missing |
| `TabsShown.SelectAndReset` | services/frontend/src/composables/useTerminalTabs.js:53-61 | selecting changes the active tab only; a reset clears all but the counter of ids |
| `Tabs.NumberTabs` | services/frontend/src/composables/useTerminalTabs.js:15-17 | the tabs at the given places are numbered in order, the others untouched |
| `Tabs.TerminalTabs.RelabelGroup` | services/frontend/src/composables/useTerminalTabs.js:11-18 | only titles of that group change, and they become the bare name or the name numbered in order |
| `Tabs.TerminalTabs.OpenTab` | services/frontend/src/composables/useTerminalTabs.js:20-31 | the new state, with the limit message and nothing else at sixteen tabs |
| `Tabs.TerminalTabs.CloseTab` | services/frontend/src/composables/useTerminalTabs.js:33-41 | the new state; the last tab becomes active if the active one was closed |
| `Tabs.TerminalTabs.MoveTab` | services/frontend/src/composables/useTerminalTabs.js:43-51 | the new order, or none if an id is missing |
| `Tabs.TerminalTabs.SelectTab` | services/frontend/src/composables/useTerminalTabs.js:59-61 | the id becomes active without any check |
| `Tabs.TerminalTabs.ResetTabs` | services/frontend/src/composables/useTerminalTabs.js:53-57 | no tab, none active; the counter of ids goes on |
| `Sse.ReadEvent` | services/attempt-controller/internal/pocketbase/realtime.go:136-158 | the next frame and the scanner behind it, or the end of the stream; names are trimmed of Unicode white space |
| `Sse.ReadAllIs` | services/attempt-controller/internal/pocketbase/realtime.go:136-158 | for any stream: one message for each paragraph that has an event or data, in order, whether or not a blank line ends the last |
| `Sse.ReadBack` | services/attempt-controller/internal/pocketbase/realtime.go:136-158 | frames of any sequence of name and data lines, with or without a space after each colon, are read back exactly, the last name counting, and then the end, whatever comments, id lines and blank lines are strewn in; without the space the data may be any text that does not start with one |
| `Sse.ReadBackUnterminated` | services/attempt-controller/internal/pocketbase/realtime.go:154-156 | a last frame without its blank line is returned too |
| `Sse.ScanWire` | services/attempt-controller/internal/pocketbase/realtime.go:139-140 | lines without line breaks, each ended by a line feed or a carriage return and a line feed, come out of the scanner unchanged |
| `Sse.ReadBackWire` | services/attempt-controller/internal/pocketbase/realtime.go:136-158 | so frames whose lines hold no line break are read back exactly from the text of the stream |

## Left out

- HTTP, TLS, tokens, re-authentication, subscriptions and paging: a call succeeds or fails.
- JSON and NDJSON coding: events arrive decoded; only the forwarder keeps the branch for a message that cannot be encoded.
- Engines of template expressions, and whether a template compiles: parameters.
- Bodies of Kubernetes objects, and of the relays everything but their two services: they are created if absent and never read.
- Deletion of a record in the database: the attempt under study exists throughout. A fetch may nevertheless answer that it does not, so that branch of services/attempt-controller/cmd/main.go:83-91 is in every run.
- Restarts of controllers, and finalizers of others: the caches of a new process start empty as in `UpstreamReconciler.Reconciler.constructor`, but no run restarts.
- At most one active attempt per user: the check before creation does not keep it, since a record is `decommissioned` before its environment is gone.
- Expired attempts: it is not claimed that they are never applied again; a failed patch after deletion leaves the record asking for provisioning, and a resync follows it.
- Validation of asset names in scripts/labs_sync_exercises.py:69-78: a loop over membership tests.
- In exercise blocks, line breaks other than `\n` and blanks other than space and tab, in both languages' notions of them.
- Lines of a stream longer than the scanner's buffer of 1 MB, which end it with an error.
- Vue components, stores, routing, timers, configuration, migrations, deployment.
- Lifecycle.Recovery: existence of a repairing run, not fairness of the scheduler.
- Creation.ProvisioningIff: an event about the record that comes late may still bring a forgotten object back; that such an event comes is not stated.
- Provisioning.Operator.Provision: time, expiry and the finalizer are in `Lifecycle`; here the namespace is that of one environment and the kubelet changes pods only between runs.
