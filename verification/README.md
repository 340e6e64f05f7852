# Go Torrent Trader: verified backend model

A Dafny 4.11 model of the parts of the tracker's backend whose correctness spans many steps: the
cluster broadcast bus, the connector manager, the OpenAPI publisher, the live feeds, and the
sequential algorithms beside them. Each component is modelled in the form it has in the source
(a class with fields where the source has an object it updates, a loop where it has a loop) and
proved against specification functions; the theorems are about those functions.
`dafny verify dfyconfig.toml` checks everything.

| module | models |
|---|---|
| `ClusterBus`, `ClusterRuns`, `ClusterOrder`, `ClusterMissed`, `ClusterQuiet`, `ClusterSessions` | the broadcast bus: one node in place, every interleaving of many, the order and number of deliveries, what becomes of a missed message, that all others can be settled, and how sessions begin and end |
| `Ownership`, `Takeover`, `DrainLoop`, `Reconcile`, `ReconcileRules` | connector supervisors under a lease and how they take over, the owner's drain loop, and the reconcile loop |
| `YamlTree`, `OpenApiOperations`, `OpenApiRefs`, `OpenApiPrune`, `OpenApiDocument`, `OpenApiRules` | the tree, the listing and dropping of operations, references by position, reachability pruning, the publisher in place, and what it keeps place by place |
| `FeedHub`, `FeedDelivery`, `EventStream` | the live-feed hub, what it delivers over a run, and its frames against the browser's event-stream reader |
| `SecretMerge`, `Redaction` | secrets in connector configs and in error messages |
| `ChatLimiter` | the chat rate limit and its strikes |
| `MarkdownLabel`, `LabelRules` | bounded link labels for uploader-chosen names, and the characters they are made of |
| `Metadata`, `MetadataRules`, `WhiteSpace` | category metadata schemas and values, and their rules in terms of what a form is filled in with |
| `Backfill` | the mentions backfill |
| `Dispatch`, `DeliveryRules` | from a published torrent to delivery rows, in place and in terms of the stored filters |
| `Wrappers` | options and results |

A concurrent component is a state machine: a datatype of steps, `Enabled`, `Apply`, and runs as
sequences of steps, so that a theorem over runs covers every interleaving. Its class performs the
same steps in place; the methods' contracts equate the object's state with the step functions.
Functions that only compute have no row below: the method proved against them, or the lemma about
them, does.

## What the proofs turned up

- Bus: a message can be missed in exactly two ways; `ClusterMissed.WindowDropReachable` and
  `ClusterMissed.FetchFailureReachable` are runs for them. It then stays missed until the receiver
  runs its resync callbacks (`ClusterMissed.OnlyAResyncHelps`). A message whose failed attempt had
  committed can be dispatched up to three times.
- Manager: two nodes can be inside their clients together only after a lease was taken away
  unnoticed; the model's `lostLease` marks it, and the next confirmation ends that run
  (`Ownership.LostLeaseEndsTheRun`). The connector's kind is not part of the fingerprint, so an
  instance whose kind alone changes keeps its supervisor. A cancelled supervisor's last report is
  shown as long as no other is registered, also for an instance whose status has been dropped.
- Publisher: publishing is not idempotent on every document. Schemas are pruned before security
  schemes, so a schema only an unused scheme refers to survives the first pass.
  `OpenApiPrune.SchemesPullNothing` is the exact condition (`OpenApiDocument.PublicTwice`), and
  `OpenApiDocument.OnePassIsNotEnough` gives a family of documents where it fails.
- Frames: the comment in `sseFrame` says every CR becomes a data line of its own. The code splits
  on LF and CRLF and drops a lone CR; the model follows the code.
- Redaction: a secret that can share bytes with the marker or the ellipsis can be completed by
  them. `Redaction.Exposed` says which values that is, `Redaction.LeaksIffExposed` that it is exactly
  those.
- Secrets: a field listed twice behaves differently from one listed once when null is involved;
  `SecretMerge.RedactedRestores` and `SecretMerge.SelfMergeIsIdentity` give the exact conditions.
- Limiter: the sharp bound for a closed stretch as long as the window is twice the limit less one.
- Labels: a URL that ends in an odd run of backslashes escapes the parenthesis meant to close the
  link (`MarkdownLabel.LinkClosesIff`), and one that begins with an angle bracket or holds a tab or a
  line feed is not read as it is written (`MarkdownLabel.LinkReadsIff`).
- Metadata: the checks ask whether a number is out of range, so NaN passes any bounds, and nothing
  refuses an infinity on a side without a bound. A result that holds one cannot be written as JSON,
  which `ValidateValues` promises and its caller then fails at (service/torrent.go, 397-404).
  `Metadata.Slips` says which submitted values get through, `Metadata.AllMeetIff` that a result is
  free of them exactly if none was submitted.

## Model

| member | source | states |
|---|---|---|
| `ClusterBus.Bus.constructor` | backend/internal/cluster/cluster.go:155-164 | A new bus has an empty queue, owes no resync, knows no handlers and has no session. |
| `ClusterBus.Bus.Subscribe` | backend/internal/cluster/cluster.go:178-182 | A handler is appended to its topic’s list; other topics keep theirs. |
| `ClusterBus.Bus.OnResync` | backend/internal/cluster/cluster.go:190-194 | A resync callback is appended to those registered before. |
| `ClusterBus.Bus.Publish` | backend/internal/cluster/cluster.go:197-212 | Never blocks: the message is queued behind the earlier ones, or the buffer is full and `lost` is set; nothing else of the node moves. |
| `ClusterBus.Bus.Notify` | backend/internal/cluster/cluster.go:261-271 | One attempt appends its one entry to the notify log unless it failed outright, and moves the sender on by one attempt. |
| `ClusterBus.Bus.NotifyWithRetry` | backend/internal/cluster/cluster.go:259-275 | The retry loop ends at the first reported success or after three attempts, reports which, and logs every attempt that committed, also those reported as failed. |
| `ClusterBus.Bus.AskResync` | backend/internal/cluster/cluster.go:246-250 | While a resync is owed, the request goes first, and `lost` is cleared only if it went out. |
| `ClusterBus.Bus.Deliver` | backend/internal/cluster/cluster.go:251-253 | Giving a message up sets `lost`; sending it leaves `lost` alone. |
| `ClusterBus.Bus.SendOne` | backend/internal/cluster/cluster.go:240-256 | One turn of the send loop takes the oldest message and leaves node and log as the resync request and the message, each retried, make them. |
| `ClusterBus.RetryStep` | backend/internal/cluster/cluster.go:259-275 | Whatever the database answers, the loop touches nothing but the sender’s position and ends in one of two places. |
| `ClusterBus.RetryTriesThreeTimes` | backend/internal/cluster/cluster.go:259-275 | A message is tried until an attempt is reported a success, three times at most; it counts as sent exactly if one of the three was, and is in the log once for each attempt that committed. |
| `ClusterBus.Bus.FireResyncCallbacks` | backend/internal/cluster/cluster.go:512-526 | After the earlier calls come as many as there are callbacks, the i-th of them to the i-th callback. |
| `ClusterBus.Bus.CallHandlers` | backend/internal/cluster/cluster.go:480-489 | The handlers of a topic are called in the order they subscribed; a topic without any is no error. |
| `ClusterBus.Bus.DispatchEntry` | backend/internal/cluster/cluster.go:455-489 | Own messages and probes are passed over, another node’s resync request resyncs, and its message goes to its topic’s handlers unless a spilled payload is gone. |
| `ClusterBus.Bus.Hear` | backend/internal/cluster/cluster.go:408-489 | One notification moves the session on by one, and calls what it is to call, in order. |
| `ClusterBus.CallsByPlace` | backend/internal/cluster/cluster.go:408-526 | By its place among the calls: every callback once when the session goes live and when another node asks for a resync, every handler of the topic once for another node’s message whose payload is there, and nothing otherwise. |
| `ClusterBus.GoesLive` | backend/internal/cluster/cluster.go:408-419 | A session goes live with the answer to its pending probe and with nothing else, and is otherwise left as it was. |
| `ClusterRuns.RetryIsARun` | backend/internal/cluster/cluster.go:259-275 | The retry loop, uninterrupted, is a run of single attempts in the interleaving model. |
| `ClusterRuns.SendOneIsARun` | backend/internal/cluster/cluster.go:240-256 | A turn of the send loop is a run of the interleaving model, so what holds over runs holds of the in-place bus. |
| `ClusterRuns.NothingMissedStaysMissed` | backend/internal/cluster/cluster.go:232-256 | Over every interleaving of any number of nodes, each published message has, at each other node, been dispatched or been followed by a resync, or is still owed; the only exceptions are a drop between a resync request and the clearing of `lost`, and a spilled payload that could not be fetched. |
| `ClusterRuns.QuietMeansSettled` | backend/internal/cluster/cluster.go:232-239 | Once a publisher holds and owes nothing and a receiver’s live session has heard the whole log, every message that is no exception was dispatched there or followed by a resync there. |
| `ClusterQuiet.QuietIsReachable` | backend/internal/cluster/cluster.go:232-256 | From every state a run can reach, a publisher and a receiver that have not stopped can come to that point, without a new exception and without losing the receiver’s session if it is a live one. |
| `ClusterQuiet.CanStillBeSettled` | backend/internal/cluster/cluster.go:232-256 | So in every such state each published message that is no exception can still be settled. |
| `ClusterRuns.DropThenStore` | backend/internal/cluster/cluster.go:246-249 | A message dropped on a full buffer is forgotten by the sender’s next store exactly if the resync request is already out and the live receiver has already heard every such request. |
| `ClusterRuns.HearMissesExactly` | backend/internal/cluster/cluster.go:469-489 | Hearing the last copy of a message, nothing else being under way for it, loses it exactly if it was spilled and the fetch fails. |
| `ClusterRuns.LiveOnlyAfterOwnProbe` | backend/internal/cluster/cluster.go:346-419 | In every run a session that counts as live has heard a probe of its own, sent after it began to listen. |
| `ClusterRuns.DeafSessionNeverGoesLive` | backend/internal/cluster/cluster.go:346-355 | A session that delivers nothing is never taken for live and never moves, however long it lasts and whatever the other nodes do. |
| `ClusterOrder.DeliveryKeepsPublishOrder` | backend/internal/cluster/cluster.go:232-256 | Over every run, what a node dispatches of another node’s messages comes in that node’s publish order, strictly so if no failed attempt had committed; a node never dispatches its own. |
| `ClusterOrder.NumbersArePublishOrder` | backend/internal/cluster/cluster.go:197-212 | A node’s messages are numbered in the order they are published, so order by number is publish order. |
| `ClusterOrder.AtMostSendAttemptsCopies` | backend/internal/cluster/cluster.go:259-275 | However many failed attempts committed, no node dispatches a message more than three times. |
| `ClusterMissed.DropForgottenExactly` | backend/internal/cluster/cluster.go:246-249 | The exact condition for a message dropped in the middle of a recovery to be missed once `lost` is cleared, in every state a run can reach. |
| `ClusterMissed.OnlyAResyncHelps` | backend/internal/cluster/cluster.go:232-256 | Whatever happens from the moment a message is missed, it is made up for exactly if the receiver runs its resync callbacks. |
| `ClusterMissed.StaysMissed` | backend/internal/cluster/cluster.go:232-256 | A missed message stays missed over every run in which the receiver keeps its session and no other node’s resync request goes out. |
| `ClusterMissed.WindowDropReachable` | backend/internal/cluster/cluster.go:246-249 | A run of two nodes in which a message is dropped in that window, and then stays missed over every such run. |
| `ClusterMissed.FetchFailureReachable` | backend/internal/cluster/cluster.go:469-489 | A run of two nodes in which a spilled payload cannot be fetched, and the message then stays missed over every such run. |
| `ClusterSessions.ProbesDiffer` | backend/internal/cluster/cluster.go:369-405 | Over every run later probes carry larger nonces, so an answer answers one of them. |
| `ClusterSessions.OneProbeAtATime` | backend/internal/cluster/cluster.go:371-405 | A session has one probe under way at most, its latest, and sends none while it has. |
| `ClusterSessions.SessionsEnd` | backend/internal/cluster/cluster.go:318-365 | A session can be cut or dropped and a node stopped at any time; one that is cut, dropped or stopped hears nothing, and a node without one can listen again. |
| `ClusterSessions.StoppedDoesNothing` | backend/internal/cluster/cluster.go:214-245 | A node that has stopped stays stopped and calls nobody any more, whatever the others do. |
| `ClusterSessions.StoppedSendsNothing` | backend/internal/cluster/cluster.go:214-245 | And it sends nothing any more. |
| `Ownership.SingleOwner` | backend/internal/connector/manager.go:435-475 | Over every run of any number of supervisors on any nodes, old and new side by side, two are inside their client or a delivery pass at once only if one of them has had its lease taken away. |
| `Ownership.SingleOwnerOutright` | backend/internal/connector/manager.go:435-475 | If leases last until they are released, at most one supervisor of an instance is ever announcing. |
| `Ownership.NothingOutlivesTheLease` | backend/internal/connector/manager.go:491-505 | Whatever path ends a run, the client has returned and watchdog and drain loop are over when the lease can be released. |
| `Ownership.OnlyTheLastLoopIsRegistered` | backend/internal/connector/manager.go:569-597 | Over every run, also with leases lost and several supervisors on one node: the node’s map holds a wake-up channel exactly if it is that of the drain loop started last there and that loop still runs, so a loop that leaves never removes a newer one’s. |
| `Ownership.OldLoopLeavesNewRegistered` | backend/internal/connector/manager.go:585-593 | A run in which, after a lost lease, an old loop leaves a node while a newer one runs there, and the newer one stays registered. |
| `Ownership.DrainsAreTheRunningLoops` | backend/internal/connector/manager.go:569-597 | In runs in which no lease is lost, a node’s map holds a wake-up channel exactly while the drain loop it belongs to runs there. |
| `Ownership.AtMostOneMorePass` | backend/internal/connector/manager.go:606-619 | Once a run’s context has ended, at most one more delivery pass begins before the lease is released, and none if a pass was under way. |
| `Ownership.LostLeaseEndsTheRun` | backend/internal/connector/manager.go:512-534 | The first confirmation asked for after the lease was lost fails and ends the run, whatever happens meanwhile, and from then on at most one more delivery pass begins before the release. |
| `Ownership.OverlapReachable` | backend/internal/connector/manager.go:512-534 | With a lease lost unnoticed, two nodes can be inside their clients together: the overlap the watchdog exists to bound is real. |
| `Takeover.GoneOnlyIfCancelled` | backend/internal/connector/manager.go:440-475 | Over every run a supervisor gives up only if it was told to. |
| `Takeover.WatchedWhileRunning` | backend/internal/connector/manager.go:512-534 | Over every run, while a client is inside Start and its run is not over, its watchdog is awake. |
| `Takeover.AsksAgain` | backend/internal/connector/manager.go:519-533 | A confirmation that succeeds leaves the watchdog to ask again, about the lease as it is then. |
| `Takeover.LoopLivesAsLongAsTheRun` | backend/internal/connector/manager.go:569-626 | Nothing but the end of the run ends its drain loop. |
| `Takeover.SleepsBetweenAttempts` | backend/internal/connector/manager.go:443-474 | A supervisor attempts to get the lease at most once more than it has slept, however its attempts and runs end. |
| `Takeover.BeginningsAndEnds` | backend/internal/connector/manager.go:435-475 | Over every run passes, stays inside Start and ownerships begin and end in turn, and one is under way exactly between the two. |
| `Takeover.CanWindDown` | backend/internal/connector/manager.go:491-505 | From every sound state an owner can come to its release by its own steps, and the lease is free again if it had it. |
| `Takeover.CancelledCanEnd` | backend/internal/connector/manager.go:440-475 | A cancelled supervisor can always come to its end by its own steps. |
| `Takeover.RefusedGivesBack` | backend/internal/connector/manager.go:479-489 | A connector whose kind is refused gives the lease back all the same. |
| `Takeover.CanTakeOver` | backend/internal/connector/manager.go:435-475 | From every state a run can reach, whoever is not told to stop can get into its client, with the lease, an awake watchdog and its registered loop, by its own steps alone once the lease is free; an owner can give it back and do so again. |
| `DrainLoop.Drainer.SignalWake` | backend/internal/connector/manager.go:295-302 | A signal leaves the depth-1 channel full, whether or not it was. |
| `DrainLoop.Drainer.Turn` | backend/internal/connector/manager.go:606-657 | One turn of the drain loop: wait or wake, check the connection, run a pass or wait for the client, and choose the next wait; what these waits come to is `DrainLoop.WaitsAsThePassAsked`. |
| `DrainLoop.TurnIsARun` | backend/internal/connector/manager.go:606-626 | An uninterrupted turn is a run of the interleaving model. |
| `DrainLoop.RunRemembers` | backend/internal/connector/manager.go:606-657 | Every step keeps an unserved request in the channel or in the loop’s hands, also when the wake is used up while disconnected or comes mid-pass. |
| `DrainLoop.NoRequestLost` | backend/internal/connector/manager.go:259-302 | Over every run each signal is followed by a pass that began after it, or is still remembered, or the loop is over; the loop never settles into a poll or a retry wait having forgotten one. |
| `DrainLoop.OwedIsServedPromptly` | backend/internal/connector/manager.go:599-626 | With the client connected an unserved request is served within one connect poll, at once unless the loop was waiting for that client, and within three of the loop’s own steps, however many further requests come meanwhile. |
| `DrainLoop.WaitsAsThePassAsked` | backend/internal/connector/manager.go:606-645 | With nothing in the channel exactly the poll goes by before the next pass after one that does not want to go again, exactly what it asked for after one that does, or nothing if that is none, and the connect poll after a client that was not connected. |
| `DrainLoop.FirstPassAtOnce` | backend/internal/connector/manager.go:607-615 | The first look at the client is waited for not at all. |
| `DrainLoop.PassComes` | backend/internal/connector/manager.go:606-626 | With the client connected the next pass always comes within three of the loop’s own steps. |
| `DrainLoop.WaitsCanEnd` | backend/internal/connector/manager.go:641-657 | A wait can end by the channel exactly if that is full, by the context exactly if that has ended, by its timer, and at once exactly if there is nothing to wait for. |
| `DrainLoop.WakesAreUsedUp` | backend/internal/connector/manager.go:295-302 | One pending wake-up covers any number of requests, and the loop is woken no more often than it was asked. |
| `DrainLoop.AlwaysHeard` | backend/internal/connector/manager.go:295-302 | A request or the end of the context is taken at every point of the loop and moves it nowhere. |
| `DrainLoop.TraceIsWhatHappened` | backend/internal/connector/manager.go:606-626 | Over every run passes begin exactly where the client was found connected, and never while it was not. |
| `DrainLoop.AtMostOneMorePass` | backend/internal/connector/manager.go:606-619 | Once the context has ended at most one more pass begins, and none from a pass under way or from a wait for nothing. |
| `DrainLoop.OverOnlyIfEnded` | backend/internal/connector/manager.go:606-619 | The loop is over only if its context has ended. |
| `DrainLoop.EndedCanStop` | backend/internal/connector/manager.go:606-619 | An ended loop can come to its end from wherever it is. |
| `Reconcile.Manager.SetStatus` | backend/internal/connector/manager.go:679-696 | A superseded generation’s report is ignored; otherwise state and error are stored, Since stays if the state shown was the same and is now if not, and no other entry changes. |
| `Reconcile.Manager.StartInstance` | backend/internal/connector/manager.go:413-433 | A start takes the next generation, registers it with the current fingerprint and reports acquiring. |
| `Reconcile.Wanted` | backend/internal/connector/manager.go:352-362 | What is wanted is exactly the listed instances of persistent kinds, by id. |
| `Reconcile.Manager.CollectWanted` | backend/internal/connector/manager.go:352-362 | The loop over the listed rows collects what is wanted, a later row replacing an earlier one. |
| `Reconcile.Manager.StopUnlessWanted` | backend/internal/connector/manager.go:367-383 | An instance running as wanted is left alone; any other is cancelled and removed, and forgotten altogether if it is not wanted at all. |
| `Reconcile.Manager.StopStale` | backend/internal/connector/manager.go:364-388 | After the pass over the running map, in any order, exactly the stale supervisors are cancelled and exactly the others still run; what is left to start is what does not run as wanted. |
| `Reconcile.Manager.ListToStart` | backend/internal/connector/manager.go:384-387 | What is left to start is listed once each, in whatever order. |
| `Reconcile.Manager.StartAll` | backend/internal/connector/manager.go:398-400 | The listed instances are started one by one, and after each start whatever supervisors report lands. |
| `Reconcile.StartedSoFar` | backend/internal/connector/manager.go:394-400 | After any number of starts in any order, with any reports of supervisors old and new in between, what was started runs with a new generation, the rest is as the pass left it, and each status is what the pass left, then anybody’s reports up to the start, acquiring, and the new supervisor’s own reports from then on. |
| `Reconcile.Manager.ReconcileOnce` | backend/internal/connector/manager.go:340-401 | A failed listing changes nothing; otherwise, whatever is reported while it waits and starts, every instance runs or not as the list asks, generations stay distinct and below the counter, the cancelled supervisors are exactly those no longer registered, and each status is what a kept supervisor’s own reports made of it, acquiring and then a started one’s own reports, or, where none is registered, what anybody still reported. |
| `Reconcile.Manager.MarkAllStopped` | backend/internal/connector/manager.go:659-672 | Everything that ran is taken from the map, reported stopped and cancelled; no other status changes. |
| `Reconcile.Manager.StopAll` | backend/internal/connector/manager.go:659-677 | Shutdown empties the running map and cancels exactly what ran; each status is the stopped one, or the old one of an instance that did not run, and then whatever is still reported during the wait. |
| `Reconcile.FingerprintShowsEdits` | backend/internal/connector/manager.go:698-702 | For names without NUL, two instances have one fingerprint exactly if name and config agree. |
| `Reconcile.RunsWhatIsWanted` | backend/internal/connector/manager.go:340-401 | After a reconcile the running ids are exactly the wanted ones, each with its current fingerprint; a matching one keeps its supervisor, every other has a generation never used before. |
| `Reconcile.SecondReconcileIsANoOp` | backend/internal/connector/manager.go:340-401 | A second reconcile against the same list stops and starts nothing and spends no generation; only statuses can change, each by its own supervisor’s reports, and without reports nothing does. |
| `Reconcile.StaleIsCancelled` | backend/internal/connector/manager.go:364-388 | A supervisor that ran before has been cancelled exactly if it is not the registered one any more, which is exactly if its config was not the wanted one. |
| `Reconcile.OnlyTheRegisteredGenerationReports` | backend/internal/connector/manager.go:679-696 | However the reports of superseded supervisors are interleaved, an instance’s status is what the registered supervisor’s own reports, alone, would have left. |
| `Reconcile.UnregisteredReports` | backend/internal/connector/manager.go:679-696 | While no supervisor is registered for an instance, its status is what all reports for it, in order, leave. |
| `Reconcile.BackoffAfter` | backend/internal/connector/manager.go:457-474 | Over any sequence of healthy and failed runs the backoff stays between 5 and 60 seconds. |
| `Reconcile.FailuresReachTheCap` | backend/internal/connector/manager.go:704-710 | After four or more failed runs in a row the backoff is at its cap. |
| `ReconcileRules.LastRowCounts` | backend/internal/connector/manager.go:352-362 | What is wanted of an id is the last row listed for it that has a persistent kind. |
| `ReconcileRules.OnlyListedRowsCount` | backend/internal/connector/manager.go:352-362 | Nothing is wanted that no such row lists. |
| `ReconcileRules.RestartsExactlyOnEdits` | backend/internal/connector/manager.go:364-388 | From one reconcile to the next an instance wanted by both keeps its supervisor exactly if neither its name nor its config was edited. |
| `ReconcileRules.UnwantedIsForgotten` | backend/internal/connector/manager.go:376-383 | An instance that is not wanted any more does not run, its kind is forgotten, and a status is shown for it only if one was reported since. |
| `ReconcileRules.KindsAreThoseStarted` | backend/internal/connector/manager.go:413-425 | One that is started has the kind of its row, one that is kept the kind it had. |
| `ReconcileRules.LastReportShows` | backend/internal/connector/manager.go:679-696 | What is shown is the last report’s state and error. |
| `ReconcileRules.SinceTheStretchBegan` | backend/internal/connector/manager.go:689-694 | Since is the time of the first report of the unbroken stretch of reports of the state shown. |
| `ReconcileRules.SinceGoesOn` | backend/internal/connector/manager.go:689-694 | A state that was shown already goes on since it began. |
| `ReconcileRules.BackoffDoubles` | backend/internal/connector/manager.go:704-710 | After a run that lasted and no, one, two, three or more failures since, the backoff is 5, 10, 20, 40 or 60 seconds. |
| `YamlTree.Find` | backend/internal/openapi/openapi.go:215-225 | Lookups find the first entry for a key. |
| `YamlTree.LookupWith` | backend/internal/openapi/openapi.go:249-265 | Replacing a value in place changes that lookup and no other, and no entry’s position. |
| `YamlTree.LookupWithout` | backend/internal/openapi/openapi.go:236-247 | With distinct keys, deleting an entry removes that lookup and no other. |
| `OpenApiOperations.DropCommutesWithListing` | backend/internal/openapi/openapi.go:86-125 | Listing the rewritten tree gives, in document order, exactly the operations of the original that are not internal, with the marker cleared. |
| `OpenApiOperations.SortedListingCommutes` | backend/internal/openapi/openapi.go:118-124 | The same for the sorted listing, whatever order equal keys are put in. |
| `OpenApiOperations.OwnFieldsKept` | backend/internal/openapi/openapi.go:287-292 | A path item keeps all its fields that are no operations, unchanged and in order. |
| `OpenApiOperations.DropSettles` | backend/internal/openapi/openapi.go:271-312 | After the rewrite no path item is without an operation, none is internal or marked, and a second rewrite changes nothing. |
| `OpenApiRules.MethodsAre` | backend/internal/openapi/openapi.go:63-72 | The fields of a path item that are operations are the eight methods, in capitals or not. |
| `OpenApiRules.InternalIs` | backend/internal/openapi/openapi.go:228-234 | An operation is internal exactly if its `x-audience` is the text internal. |
| `OpenApiRules.ListingIsComplete` | backend/internal/openapi/openapi.go:86-117 | The listing holds an operation for each method of each path item, with its path, method, audience and id, and nothing else. |
| `OpenApiRules.ListingInOrder` | backend/internal/openapi/openapi.go:86-117 | It follows the document. |
| `OpenApiRules.FieldsKept` | backend/internal/openapi/openapi.go:283-300 | What is left of a path item’s fields is exactly what is no operation, unchanged, and each operation that is not internal, less its marker. |
| `OpenApiRules.OthersLeadOn` | backend/internal/openapi/openapi.go:236-247 | Less its marker, an operation has every other key as it had it. |
| `OpenApiRules.PathsKept` | backend/internal/openapi/openapi.go:277-309 | What is left of the paths is exactly the path items with an operation that is not internal. |
| `OpenApiRules.PathsInOrder` | backend/internal/openapi/openapi.go:277-309 | They stay in order. |
| `OpenApiPrune.ReachIsLeast` | backend/internal/openapi/openapi.go:395-404 | The reached names are the least set that holds the seeds and is closed under references, also in cyclic schema graphs. |
| `OpenApiPrune.ReachAfterPruning` | backend/internal/openapi/openapi.go:395-413 | Removing unreached schemas does not change what is reached. |
| `OpenApiRefs.RefsAreFound` | backend/internal/openapi/openapi.go:415-436 | The walk finds a schema’s name exactly if some mapping at or under the node, by a path of child positions, holds a `$ref` with the text that names it. |
| `OpenApiRefs.NamesAreFound` | backend/internal/openapi/openapi.go:470-507 | The walk over requirements finds exactly the keys of the items of `security` lists at or under the node. |
| `OpenApiRefs.RequiredIsFound` | backend/internal/openapi/openapi.go:438-468 | What the pruning takes to be required is what the document, or something outside its components, requires. |
| `OpenApiPrune.SeedsAreOutside` | backend/internal/openapi/openapi.go:377-393 | The names the pruning starts from are exactly those that something outside the schemas refers to, by position. |
| `OpenApiPrune.SuccessorsRefer` | backend/internal/openapi/openapi.go:395-404 | The names followed from a schema are exactly those that something at or under it refers to. |
| `OpenApiPrune.PruningIsExact` | backend/internal/openapi/openapi.go:372-413 | The surviving schemas are exactly the existing ones reachable from outside the schemas, unchanged and in their original order. |
| `OpenApiPrune.NothingNewDangles` | backend/internal/openapi/openapi.go:372-376 | Every `$ref` at any position of the pruned document that resolved before still resolves. |
| `OpenApiPrune.PruneTwice` | backend/internal/openapi/openapi.go:336-370 | Pruning twice equals pruning once exactly if no surviving schema was reached only through a security scheme that is itself dropped. |
| `OpenApiPrune.SchemesWithoutRefs` | backend/internal/openapi/openapi.go:345-356 | That is so for every document whose security schemes refer to no schema. |
| `OpenApiPrune.RequirementsStillResolve` | backend/internal/openapi/openapi.go:441-468 | The surviving schemes are exactly the required ones, no requirement changes, and a requirement resolves exactly if it did before. |
| `OpenApiPrune.NothingUnreachedIff` | backend/internal/openapi/openapi.go:345-370 | Under exactly the same condition the pruned document itself reaches every schema it keeps. |
| `OpenApiDocument.Document.DropInternalOperations` | backend/internal/openapi/openapi.go:271-312 | In place: fails exactly if paths or a path item is no mapping, and otherwise leaves the tree without its internal operations, its markers and the path items emptied out. |
| `OpenApiDocument.Document.KeepOperations` | backend/internal/openapi/openapi.go:285-300 | The inner loop keeps the right fields and counts an operation exactly if one is left. |
| `OpenApiDocument.Document.KeepPaths` | backend/internal/openapi/openapi.go:277-309 | The outer loop fails exactly if some path item is no mapping, and otherwise keeps the rewritten path items that have an operation left. |
| `OpenApiDocument.Document.RewriteTitle` | backend/internal/openapi/openapi.go:314-328 | Title and description are replaced where they stand; without them, or without an info mapping, it fails. |
| `OpenApiDocument.Document.Reachable` | backend/internal/openapi/openapi.go:395-404 | The worklist ends on every graph, with exactly the names the seeds reach. |
| `OpenApiDocument.Document.KeepNamed` | backend/internal/openapi/openapi.go:406-412 | Filtering keeps the named entries in order. |
| `OpenApiDocument.Document.CollectRefs` | backend/internal/openapi/openapi.go:381-393 | The seeds are the references under every entry but the one skipped. |
| `OpenApiDocument.Document.PruneSchemas` | backend/internal/openapi/openapi.go:377-413 | The schemas section is cut down to the reachable ones in place. |
| `OpenApiDocument.Document.PruneSchemes` | backend/internal/openapi/openapi.go:441-468 | The security schemes are cut down to those a surviving requirement names. |
| `OpenApiDocument.Document.PruneComponents` | backend/internal/openapi/openapi.go:336-370 | In place: schemas first, then schemes, then emptied sections and an emptied components block go; fails exactly if a section is no mapping. |
| `OpenApiDocument.Document.Publish` | backend/internal/openapi/openapi.go:136-150 | The three rewrites in sequence; the first failure ends them. |
| `OpenApiDocument.PublicListsThePublicOperations` | backend/internal/openapi/openapi.go:127-150 | The published document lists exactly the operations the full one does not mark internal, unmarked, and has no path item without one. |
| `OpenApiDocument.PublicTwice` | backend/internal/openapi/openapi.go:127-150 | Publishing a published document succeeds, and changes nothing exactly if no schema was kept only for a security scheme that was dropped. |
| `OpenApiDocument.PublicSchemasAreExact` | backend/internal/openapi/openapi.go:372-413 | The published schemas are exactly the existing ones reached, outside the schemas, from the rewritten document as it is before its unused security schemes go; and no `$ref` at any position that resolved dangles. |
| `OpenApiDocument.PublicReachesItsSchemasIff` | backend/internal/openapi/openapi.go:345-370 | The published document itself reaches every schema it keeps exactly if no schema was kept only for a security scheme that was dropped. |
| `OpenApiDocument.PublicRequirementsResolve` | backend/internal/openapi/openapi.go:441-468 | The published schemes are exactly the existing ones that something published requires, so a requirement that resolved still does. |
| `OpenApiDocument.PublicOnceIsEnough` | backend/internal/openapi/openapi.go:127-150 | Publishing again changes nothing for every document whose security schemes refer to no schema. |
| `OpenApiDocument.OnePassIsNotEnough` | backend/internal/openapi/openapi.go:345-356 | A family of complete documents for which publishing what was published changes it again. |
| `OpenApiRules.PublicElsewhere` | backend/internal/openapi/openapi.go:127-150 | The published paths are what is kept of the full ones, and everything outside paths, info and components is as it was. |
| `OpenApiRules.PublicInfo` | backend/internal/openapi/openapi.go:314-328 | The published info has the title and the description it was to get and every other key as it was. |
| `OpenApiRules.PublishedIff` | backend/internal/openapi/openapi.go:127-150 | Publishing fails exactly if the paths, a path item, the info or a section that is pruned is no mapping, or there is no title or description to replace. |
| `FeedHub.Hub.constructor` | backend/internal/handler/announce_sse.go:119-129 | A new hub has no clients and an empty queue. |
| `FeedHub.Hub.PickUser` | backend/internal/handler/announce_sse.go:210-214 | Exactly the user’s watchers of one feed. |
| `FeedHub.Hub.CountStreams` | backend/internal/handler/announce_sse.go:206-215 | The nested loops count the user’s streams across every feed, each once. |
| `FeedHub.Hub.TryRegister` | backend/internal/handler/announce_sse.go:202-225 | A client is admitted exactly if its user has fewer than the allowed streams, and then watches its own feed with an empty buffer. |
| `FeedHub.Hub.SetFeed` | backend/internal/handler/announce_sse.go:232-237 | A feed left without watchers leaves the map. |
| `FeedHub.Hub.RemoveClient` | backend/internal/handler/announce_sse.go:227-243 | A client is taken out once and its close falls due; for a client that is not there nothing changes. |
| `FeedHub.Hub.DisconnectUserLocal` | backend/internal/handler/announce_sse.go:295-316 | The user’s watchers leave every feed, feeds left empty leave the map, and exactly the dropped clients have a close due. |
| `FeedHub.Hub.DisconnectAllLocal` | backend/internal/handler/announce_sse.go:407-424 | Every watcher is taken out at once and has a close due, now or within the spread. |
| `FeedHub.Hub.BroadcastLocal` | backend/internal/handler/announce_sse.go:255-262 | A frame is queued behind the others, or dropped if the hub’s buffer is full. |
| `FeedHub.Hub.TrySend` | backend/internal/handler/announce_sse.go:180-187 | A send that finds room appends to that client’s buffer; one that does not changes nothing. |
| `FeedHub.Hub.OfferAll` | backend/internal/handler/announce_sse.go:179-188 | The fan-out loop offers the frame to each watcher once and collects exactly those without room. |
| `FeedHub.Hub.RunOnce` | backend/internal/handler/announce_sse.go:176-189 | The oldest frame goes to the watchers of its own feed and to nobody else, and exactly those without room are found slow. |
| `FeedHub.Hub.FanOutTurn` | backend/internal/handler/announce_sse.go:175-195 | The whole turn: the frame goes out and then exactly the slow watchers leave the map, each with a close due. |
| `FeedHub.RemoveOneMore` | backend/internal/handler/announce_sse.go:191-193 | Removing clients one by one comes to the same as taking them all out at once. |
| `FeedHub.HubIsSafe` | backend/internal/handler/announce_sse.go:175-243 | In every state any interleaving of connects, fan-outs, disconnects and delayed closes can reach: nothing was sent on a closed channel, close is called for each client at most once and for every removed one is done or due, no user exceeds five streams over all feeds, no feed is kept empty, and each buffer holds only its own feed’s frames. |
| `FeedHub.DisconnectedUserHasNone` | backend/internal/handler/announce_sse.go:295-316 | In every reachable state a disconnect leaves the user no stream in any feed, and a close due for each one that was there. |
| `FeedDelivery.LeavingIsExact` | backend/internal/handler/announce_sse.go:227-243 | A leaving handler, a user’s disconnect and a disconnect of all take out exactly their clients, each with one more close due, and touch nothing else. |
| `FeedDelivery.WatchersAreOpen` | backend/internal/handler/announce_sse.go:175-195 | In every reachable state the channel of whoever watches has not been closed, so the fan-out never sends on a closed one. |
| `FeedDelivery.CrashWouldShow` | backend/internal/handler/announce_sse.go:180-187 | A send on a closed channel would be on record. |
| `FeedDelivery.DueCloseHappens` | backend/internal/handler/announce_sse.go:238-242 | A close that is due can be made, and then has been. |
| `FeedDelivery.ConnectingWatches` | backend/internal/handler/announce_sse.go:202-225 | With fewer than five streams a client is admitted, watches its feed and has nothing buffered; otherwise nothing changes. |
| `FeedDelivery.BroadcastOrderKept` | backend/internal/handler/announce_sse.go:255-262 | Over every run the frames fanned out, followed by those still queued, are those queued first, followed by those that found room, in the order of the broadcasts. |
| `FeedDelivery.StreamIsInOrder` | backend/internal/handler/announce_sse.go:175-195 | What is written to a browser, followed by what is buffered for it, is what was buffered first, followed by exactly the frames of its feed fanned out while it watched and had room, in order. |
| `FeedDelivery.KeepingUpGetsAll` | backend/internal/handler/announce_sse.go:175-195 | A browser that keeps up gets every frame of its feed that is fanned out, in order. |
| `FeedDelivery.SlowHaveNoRoom` | backend/internal/handler/announce_sse.go:180-187 | Slow are exactly the watchers of the frame’s feed with sixteen frames buffered. |
| `FeedDelivery.NothingBlocks` | backend/internal/handler/announce_sse.go:228-262 | Leaving, disconnecting and broadcasting are open in every state, and a full queue drops the frame. |
| `EventStream.SseFrame` | backend/internal/handler/announce_sse.go:542-563 | The builder loop prints an event line, an id line unless the id is empty, one data line for each line of the payload, and the blank line. |
| `EventStream.RoundTrip` | backend/internal/handler/announce_sse.go:507-563 | Read by sections 9.2.5 and 9.2.6 of the HTML Living Standard, the retry hint and any sequence of frames and pings give exactly the announcements, in order: type and id sanitised, an id with NUL or none leaving the last one standing, data the payload less its carriage returns. |
| `EventStream.CutStreamIsAPrefix` | backend/internal/handler/announce_sse.go:515-532 | A stream cut after any byte yields the first of those events and nothing else. |
| `EventStream.FrameBack` | backend/internal/handler/announce_sse.go:542-563 | One frame read from any point between events dispatches exactly its own event. |
| `EventStream.UnchangedIffNoCr` | backend/internal/handler/announce_sse.go:556-560 | A payload arrives unchanged exactly if it has no carriage return. |
| `EventStream.FieldsCharByChar` | backend/internal/handler/announce_sse.go:565-570 | A type or an id loses its line breaks and a payload its carriage returns, character by character, and nothing else. |
| `SecretMerge.RedactConfig` | backend/internal/connector/secrets.go:28-48 | The secret keys are stripped, and those that held a non-empty string are listed; an unreadable config gives an empty object. |
| `SecretMerge.RedactedShowsNoSecret` | backend/internal/connector/secrets.go:21-27 | The redacted form has every key that is not secret and no other, and the list names each held secret exactly once. |
| `SecretMerge.NamedInOrder` | backend/internal/connector/secrets.go:28-48 | The secrets are named in the order their fields first come. |
| `SecretMerge.DecodeIs` | backend/internal/connector/secrets.go:142-160 | A config that was never set and a bare null are empty, an object is itself, and anything else is refused by name. |
| `SecretMerge.Merge` | backend/internal/connector/secrets.go:60-92 | The incoming config is read first and its error wins; otherwise the fields are folded in the order they are listed. |
| `SecretMerge.KeyByKey` | backend/internal/connector/secrets.go:67-85 | Each key of the result depends on its own two values and how often it is listed, and on nothing else. |
| `SecretMerge.KeepReplaceOrClear` | backend/internal/connector/secrets.go:50-59 | A key that is not secret comes from the incoming object; a secret listed once is kept if absent or empty, replaced if given, cleared if null. |
| `SecretMerge.RedactedRestores` | backend/internal/connector/secrets.go:50-92 | Merging the redacted form back restores the stored object exactly, unless a secret is stored as null and listed an even number of times. |
| `SecretMerge.SelfMergeIsIdentity` | backend/internal/connector/secrets.go:60-92 | Merging an object onto itself is the identity exactly if no secret listed an odd number of times is null; for fields listed once, if no secret is null. |
| `SecretMerge.MergedIsStable` | backend/internal/connector/secrets.go:60-92 | For fields listed once a merge’s result merged onto itself stays, exactly if no stored null was kept. |
| `Redaction.RedactString` | backend/internal/connector/secrets.go:107-133 | The loop replaces the eligible secrets in field order and cuts the text; an unreadable config drops the message. |
| `Redaction.FirstGivesWay` | backend/internal/connector/secrets.go:116-130 | The first occurrence of a value gives way to the marker, and what follows it is treated the same. |
| `Redaction.CutAtAThousand` | backend/internal/connector/secrets.go:135-140 | A message of up to 1000 bytes is kept, a longer one cut there and marked with the ellipsis. |
| `Redaction.ScrubbedOtherwise` | backend/internal/connector/secrets.go:107-128 | A message is only cut where no field holds a string of six bytes or more, and dropped where the config cannot be read. |
| `Redaction.SecretsInOrder` | backend/internal/connector/secrets.go:116-130 | The secrets are taken in the order of their fields. |
| `Redaction.StaysOut` | backend/internal/connector/secrets.go:116-130 | A replacement never brings in a value that cannot share a byte with the marker, and replacing the value itself removes every occurrence. |
| `Redaction.StaysBack` | backend/internal/connector/secrets.go:116-130 | A value that can only begin inside the marker, from its byte `q` on, is never brought within the first `q` bytes by a replacement. |
| `Redaction.RedactionIsComplete` | backend/internal/connector/secrets.go:106-140 | A secret of at least six bytes that is not exposed is not in the stored message, whatever the message, the other secrets and their order, and after the cut. |
| `Redaction.OrdinarySecretsKeepApart` | backend/internal/connector/secrets.go:8-19 | Every value without brackets or ellipsis bytes that is not a piece of the word in the marker keeps apart from both, and so is not exposed. |
| `Redaction.LeaksIffExposed` | backend/internal/connector/secrets.go:106-140 | A valid UTF-8 value of at least six bytes can be left in a stored message, by some stored config that holds it as a secret and some message, exactly if it is exposed, at every length. |
| `Redaction.StoredEllipsis` | backend/internal/connector/secrets.go:135-140 | A value that is valid UTF-8, as every decoded JSON string is, and shares bytes with the ellipsis ends in the whole of it. |
| `Redaction.ExposedIffNotApart` | backend/internal/connector/secrets.go:106-140 | For values of up to 990 bytes, exposed means able to share a byte with the marker or the ellipsis; longer ones are exposed in fewer cases. |
| `ChatLimiter.ChatClient.constructor` | backend/internal/handler/chat_ws.go:63-66 | A connection starts with no messages, no strikes and no window. |
| `ChatLimiter.ChatClient.Receive` | backend/internal/handler/chat_ws.go:719-755 | One message opens a new window or not, counts, and is accepted, warned about or muted for, with strikes added, spent or forgiven. |
| `ChatLimiter.AcceptedBound` | backend/internal/handler/chat_ws.go:719-727 | With fixed settings and times that never go back, any closed stretch as long as the window holds at most twice the limit less one accepted messages, and none for a limit of zero or less. |
| `ChatLimiter.BoundIsReached` | backend/internal/handler/chat_ws.go:719-727 | That bound is reached, for every positive limit and window. |
| `ChatLimiter.StrikesAreConserved` | backend/internal/handler/chat_ws.go:727-753 | Every rejected message went into a mute, is a standing strike or was forgiven by the cool-down; standing strikes stay below the threshold, and mutes times threshold never exceed the rejected messages. |
| `ChatLimiter.NoThresholdMutesAlways` | backend/internal/handler/chat_ws.go:736-740 | With a threshold of one or less every rejected message mutes and no strike stands. |
| `ChatLimiter.ForgivenAfterTheCoolDown` | backend/internal/handler/chat_ws.go:748-751 | An accepted message forgives all standing strikes exactly if more than the cool-down has gone by since the last rejected one, and none otherwise. |
| `ChatLimiter.StrikeOrMute` | backend/internal/handler/chat_ws.go:727-745 | A rejected message is one strike more; the one that reaches the threshold mutes, and the count starts over. |
| `MarkdownLabel.EscapeLabel` | backend/internal/connector/announcement.go:181-199 | The builder loop yields the escaped text, or as much of it as fits the budget with the ellipsis. |
| `MarkdownLabel.FitsIsTheMost` | backend/internal/connector/announcement.go:185-199 | What is taken fits the budget, and one character more would not. |
| `MarkdownLabel.LabelReadsBack` | backend/internal/connector/announcement.go:140-199 | For every text the label has at most 200 bytes, leaves no special character unescaped, does not end mid-escape, and unescapes by section 2.4 of CommonMark to the whole text or to the longest prefix that fits, with the ellipsis. |
| `MarkdownLabel.WholeTextComesBack` | backend/internal/connector/announcement.go:181-199 | The whole text comes back exactly if its escaped form fits the budget, or only an ellipsis of its own at the end does not. |
| `MarkdownLabel.CollapsedIsTidy` | backend/internal/connector/announcement.go:170-174 | Collapsing leaves single blanks between words and none at the ends, and loses nothing but white space. |
| `MarkdownLabel.LinkHoldsTogether` | backend/internal/connector/announcement.go:166-179 | The first unescaped closing bracket is the one that ends the label, whatever the text, and the destination has no parenthesis or blank. |
| `MarkdownLabel.LinkClosesIff` | backend/internal/connector/announcement.go:156-179 | The first unescaped parenthesis after the destination is the one the link writes exactly if the URL does not end in an odd run of backslashes. |
| `MarkdownLabel.LinkReadsIff` | backend/internal/connector/announcement.go:156-179 | By section 6.3 of CommonMark all that is written between the parentheses is read as the destination, and the link ends after it, exactly if the URL neither begins with an angle bracket nor holds a control character nor ends in an odd run of backslashes. |
| `LabelRules.BytesAreEncoded` | backend/internal/connector/announcement.go:181-199 | What a label counts for a character is the length of its UTF-8 encoding (RFC 3629, section 3). |
| `LabelRules.EncodingReadsBack` | backend/internal/connector/announcement.go:181-199 | That encoding tells where each character ends, and gives it back. |
| `LabelRules.PunctuationIs` | backend/internal/connector/announcement.go:136-155 | The escapable characters are the ASCII punctuation of section 2.1 of CommonMark. |
| `LabelRules.LabelIsPlainText` | backend/internal/connector/announcement.go:140-199 | Whatever its text, a label has at most 200 bytes and no unescaped markup character, and reads back as the whole text or its longest beginning that fits. |
| `LabelRules.LinkIsWritten` | backend/internal/connector/announcement.go:166-179 | A URL of nothing but white space gives the label alone, and any other a link. |
| `LabelRules.UrlReadsBack` | backend/internal/connector/announcement.go:156-164 | A URL without percent signs is what its encoded form decodes to. |
| `WhiteSpace.TrimTwice` | backend/internal/metadata/schema.go:253-254 | Trimming is idempotent, and leaves nothing exactly of a blank text. |
| `WhiteSpace.TrimTakesTheEnds` | backend/internal/metadata/schema.go:253-254 | Trimming takes white space off both ends and nothing else. |
| `WhiteSpace.SpacesAre` | backend/internal/metadata/schema.go:253-254 | White space is the characters of Unicode’s White_Space property. |
| `Metadata.CheckOptions` | backend/internal/metadata/schema.go:116-128 | Options are accepted exactly if there are some, none is blank and no two are equal. |
| `Metadata.CheckConstraints` | backend/internal/metadata/schema.go:113-151 | A field’s constraints are accepted exactly if its kind is known and its own ones are consistent. |
| `Metadata.CheckField` | backend/internal/metadata/schema.go:89-108 | A field is accepted exactly if key, label and constraints are good and its key is new. |
| `Metadata.ValidateSchema` | backend/internal/metadata/schema.go:85-111 | Accepts exactly the good schemas, and otherwise stops at the first field that spoils the schema. |
| `Metadata.DistinctMeans` | backend/internal/metadata/schema.go:95-98 | Distinct means that no two positions hold the same string. |
| `MetadataRules.KeysAllowed` | backend/internal/metadata/schema.go:40-45 | A key is a small letter followed by small letters, digits and underscores, 64 characters at most. |
| `MetadataRules.OptionsAllowed` | backend/internal/metadata/schema.go:115-128 | Options are allowed exactly if there are some, each shows a character, and no two are the same. |
| `MetadataRules.FieldsAllowed` | backend/internal/metadata/schema.go:89-108 | A field has a good key, a caption that shows a character and has at most 128, and constraints that make sense. |
| `MetadataRules.BoundsMakeSense` | backend/internal/metadata/schema.go:132-135 | Bounds on numbers that take fractions are accepted exactly if some number is within them. |
| `MetadataRules.LengthMakesSense` | backend/internal/metadata/schema.go:136-144 | A greatest length is accepted exactly if some text is short enough, and a pattern exactly if it compiles as well. |
| `MetadataRules.ChoicesMakeSense` | backend/internal/metadata/schema.go:115-131 | A limit on how many options may be taken is accepted exactly if one may. |
| `MetadataRules.OtherKinds` | backend/internal/metadata/schema.go:145-149 | A switch is always accepted, a kind nobody knows never. |
| `Metadata.MergeLevel` | backend/internal/metadata/schema.go:161-168 | The inner loop, with its index, puts each definition in its key’s place or at the end. |
| `Metadata.Merge` | backend/internal/metadata/schema.go:157-171 | The nested loops merge the chain, level by level. |
| `Metadata.MergedIs` | backend/internal/metadata/schema.go:153-156 | The merged keys are the chain’s keys by first appearance, each once, and each holds the definition nearest the leaf. |
| `Metadata.MergeIsGood` | backend/internal/metadata/schema.go:157-171 | Merging good schemas gives a good schema. |
| `Metadata.MergeInTwoGoes` | backend/internal/metadata/schema.go:153-171 | An ancestor’s merged schema can stand for the whole chain above it. |
| `Metadata.Dedupe` | backend/internal/metadata/schema.go:335-346 | Accepted exactly if every item is an option, and then without duplicates, in first-seen order. |
| `Metadata.CoerceMultiselect` | backend/internal/metadata/schema.go:330-351 | A list of options within its limit, counted after duplicates are dropped. |
| `Metadata.CoerceFields` | backend/internal/metadata/schema.go:192-207 | The loop over the schema stops at the first field that fails and otherwise collects what each provided value becomes. |
| `Metadata.ValidateValues` | backend/internal/metadata/schema.go:178-208 | Unknown keys are refused before any value is looked at. |
| `Metadata.NumberAcceptedIff` | backend/internal/metadata/schema.go:302-317 | What was submitted for a number field is accepted exactly if it parses to a finite number in range, and whole where asked, or slips through: NaN where fractions are taken, an infinity where that side has no bound. |
| `Metadata.AllMeetIff` | backend/internal/metadata/schema.go:173-208 | Everything in an accepted result meets its field, and every number in it can be written as JSON, exactly if nothing submitted for a number field slips through. |
| `Metadata.BoundsKeptIff` | backend/internal/metadata/schema.go:310-315 | The numbers in an accepted result keep their bounds exactly if nothing submitted for a field with a bound that takes fractions parses to NaN. |
| `Metadata.NaNGetsThrough` | backend/internal/metadata/schema.go:302-317 | If the text NaN parses to NaN, every form with one number field that takes fractions accepts it, bounded or not, and JSON cannot write the result. |
| `Metadata.InfinityGetsThrough` | backend/internal/metadata/schema.go:302-317 | If the text Inf parses to infinity, every form with one number field without a maximum accepts it, whole numbers or not, and JSON cannot write the result. |
| `Metadata.CoercedMeets` | backend/internal/metadata/schema.go:264-368 | What a provided value is coerced to meets its field, which for a number includes being finite, exactly if the value does not slip through; it counts as provided, and is coerced to itself. |
| `Metadata.ValidatedIsSound` | backend/internal/metadata/schema.go:173-208 | The result has only schema keys, exactly the provided ones and so every required one, and each value meets its field, finite numbers included, exactly if what was submitted for it does not slip through. |
| `Metadata.ValidatedTwice` | backend/internal/metadata/schema.go:173-208 | The result is valid again, with the same result. |
| `Metadata.AcceptedIff` | backend/internal/metadata/schema.go:173-208 | Values are accepted exactly if every key is known and every field passes on its own. |
| `MetadataRules.TextTaken` | backend/internal/metadata/schema.go:281-300 | Text is taken, without the white space around it, exactly if what is left is short enough and matches. |
| `MetadataRules.NumberTaken` | backend/internal/metadata/schema.go:302-317 | A finite number is taken as it is exactly if it is within the bounds and whole where asked. |
| `MetadataRules.NumbersMayBeText` | backend/internal/metadata/schema.go:370-389 | A number may be submitted as one or as text that parses to one, white space around it or not, and as nothing else. |
| `MetadataRules.ChoiceTaken` | backend/internal/metadata/schema.go:319-328 | A choice is taken exactly if it is one of the options, letter for letter. |
| `MetadataRules.ManyTaken` | backend/internal/metadata/schema.go:330-351 | A list is taken, without repetitions, exactly if it holds options only and no more than allowed once they are gone. |
| `MetadataRules.OnlyListsTaken` | backend/internal/metadata/schema.go:392-411 | Only lists of texts are taken for many options. |
| `MetadataRules.FirstOnesStay` | backend/internal/metadata/schema.go:335-346 | The first of each option stays behind those before it, and nothing is added. |
| `MetadataRules.SwitchTaken` | backend/internal/metadata/schema.go:353-366 | A switch is taken as it is, or as the word true or false in capitals or not, with that meaning, and as nothing else. |
| `MetadataRules.EmptyIs` | backend/internal/metadata/schema.go:249-262 | Nothing, text without a visible character and an empty list count as not provided, and nothing else does. |
| `MetadataRules.MissingFields` | backend/internal/metadata/schema.go:192-203 | A required field that is missing is refused by name, and one that is not required left out. |
| `Backfill.StringSlicesEqual` | backend/cmd/backfill-mentions/backfill.go:192-202 | Reports whether two lists hold the same strings in the same order. |
| `Backfill.RestAfter` | backend/cmd/backfill-mentions/backfill.go:97-112 | After the k-th wanted row, the query finds exactly the wanted rows that come later. |
| `Backfill.EachWantedRowOnce` | backend/cmd/backfill-mentions/backfill.go:77-80 | The walk covers exactly the rows with a positive id and an @ in the body, each once. |
| `Backfill.Table.Write` | backend/cmd/backfill-mentions/backfill.go:140-156 | One transaction applies the collected updates, each to its own row. |
| `Backfill.Table.ResolveBatch` | backend/cmd/backfill-mentions/backfill.go:120-138 | A batch is resolved up to its first failure; a dry run counts what differs, otherwise the updates are collected. |
| `Backfill.BatchApplied` | backend/cmd/backfill-mentions/backfill.go:120-156 | A batch’s updates together refresh exactly the batch. |
| `Backfill.Table.OnePage` | backend/cmd/backfill-mentions/backfill.go:114-157 | A batch that resolves is written whole; one that does not is not written at all. |
| `Backfill.Table.Turn` | backend/cmd/backfill-mentions/backfill.go:103-164 | One turn of the loop either reaches a later row or ends the run with its report. |
| `Backfill.Table.Pages` | backend/cmd/backfill-mentions/backfill.go:103-166 | The loop ends for every positive batch size, having refreshed all wanted rows or those of the batches before the first failure. |
| `Backfill.Table.BackfillTable` | backend/cmd/backfill-mentions/backfill.go:91-167 | The whole run: a negative limit is refused, zero does nothing, a positive one gives the same table and counts whatever it is, a failure leaves exactly the earlier batches written, and a dry run writes nothing and, if every body resolves, counts the same; after a failure it also counts the part of the failed batch it resolved. |
| `Backfill.FinishedIsAMap` | backend/cmd/backfill-mentions/backfill.go:77-90 | A finished run is a map over the table: each wanted row holds the names its body resolves to, every other row and column is as before. |
| `Backfill.SecondRunChangesNothing` | backend/cmd/backfill-mentions/backfill.go:80-83 | After a finished run a second one has nothing to change. |
| `Backfill.FinishedRowByRow` | backend/cmd/backfill-mentions/backfill.go:103-166 | After a finished run each row with a positive id and an @ in its body has the names the body resolves to, and everything else is what it was. |
| `Backfill.StoppedRowByRow` | backend/cmd/backfill-mentions/backfill.go:103-166 | After a run that ended early the first so many wanted rows, by id, have the names their bodies resolve to, and everything else is what it was. |
| `Backfill.ReportInFigures` | backend/cmd/backfill-mentions/backfill.go:91-167 | A run reports the wanted rows scanned and those whose names were stale, or the first row whose body does not resolve, the rows scanned up to the end of its batch, and the stale rows of the batches before it, or in a dry run of the rows before it. |
| `Dispatch.KeyTellsEvents` | backend/internal/connector/announcement.go:78-83 | Two announcements have one event key exactly if they are the same event of the same torrent, whatever the event’s name. |
| `Dispatch.Dispatcher.InsertPending` | backend/internal/listener/connector_dispatch.go:183-193 | A row is added unless the insert fails or its instance already has one for the event. |
| `Dispatch.Dispatcher.Announce` | backend/internal/listener/connector_dispatch.go:145-205 | One target is withheld on record, skipped or announced, and a drain follows only a new pending row. |
| `Dispatch.Dispatcher.HandlePublished` | backend/internal/listener/connector_dispatch.go:54-206 | The handler: a muted site, an unreadable list and broken filters are passed over, the category chain is resolved once, and the targets are handled in order. |
| `Dispatch.RunKeeps` | backend/internal/listener/connector_dispatch.go:139-204 | Over any sequence of events there is at most one row for each instance and event and, with a queue, one drain for each pending row, in order. |
| `Dispatch.RowsAreEarned` | backend/internal/listener/connector_dispatch.go:139-204 | Over any run every row comes from an event that found its instance enabled with filters in order: pending where they let the announcement through, withheld where they had to hold it. |
| `Dispatch.Isolation` | backend/internal/listener/connector_dispatch.go:85-107 | What an instance gets depends on its own filters and its own insert alone; others may be broken, failing or absent. |
| `Dispatch.WhatAnInstanceGets` | backend/internal/listener/connector_dispatch.go:145-205 | For an event that is new to it an instance gets exactly the row its filters ask for: pending, withheld with the reason, or none. |
| `Dispatch.ExcludeFailsClosed` | backend/internal/listener/connector_dispatch.go:156-181 | With an exclude filter an announcement goes out exactly if the chain is known and disjoint from the list and the other filters agree, and is withheld exactly if the chain is unknown. |
| `Dispatch.ExcludeHoldsOverRuns` | backend/internal/listener/connector_dispatch.go:139-204 | Over any run each pending row comes from an event whose target, if its filter excludes categories, was given a chain by the resolver, or needed none, and found nothing of it listed; each withheld row comes from one that excludes categories and was given no chain. |
| `Dispatch.LeafImpliesChain` | backend/internal/connector/filters.go:91-105 | An include filter that takes the leaf alone takes the whole chain too. |
| `DeliveryRules.IncludeTakesListed` | backend/internal/connector/filters.go:91-105 | An include filter that lists categories lets an announcement through exactly if some category on the chain is listed and the other filters agree, and never withholds one. |
| `DeliveryRules.ExcludeKeepsListedOut` | backend/internal/connector/filters.go:91-105 | An exclude filter that lists categories lets one through exactly if the chain is known, none on it is listed and the other filters agree, and withholds it exactly if the chain is not known. |
| `DeliveryRules.NoCategoriesNoOpinion` | backend/internal/connector/filters.go:94-97 | A filter that lists no category has no opinion on them, whatever its mode. |
| `DeliveryRules.EventsNarrow` | backend/internal/connector/filters.go:73-75 | A filter on events lets its own through and no other. |
| `DeliveryRules.SizeNarrows` | backend/internal/connector/filters.go:79-81 | A torrent exactly at the least size passes and one below it does not. |
| `DeliveryRules.FreeleechNarrows` | backend/internal/connector/filters.go:82-84 | A filter for freeleech lets nothing else through. |
| `DeliveryRules.AnonymousNarrows` | backend/internal/connector/filters.go:85-87 | A filter against anonymous uploads lets none through, and all others. |
| `DeliveryRules.UnsetTakesAll` | backend/internal/connector/filters.go:44-51 | Filters that were never set take everything. |
| `DeliveryRules.StoredFilters` | backend/internal/connector/filters.go:44-69 | Text that does not decode, a negative size and an unknown mode are refused; otherwise the fields are those stored, and the filter excludes exactly if the text says exclude. |
| `DeliveryRules.TargetsAre` | backend/internal/listener/connector_dispatch.go:85-107 | The targets are exactly the enabled instances whose filters can be read. |
| `DeliveryRules.TargetsInOrder` | backend/internal/listener/connector_dispatch.go:85-107 | They are gone through in the order of the list. |
| `DeliveryRules.WhatIsDelivered` | backend/internal/listener/connector_dispatch.go:54-206 | From end to end, in terms of the stored filters and the resolver alone: an instance that is told for the first time gets a pending row exactly if the event is wanted, a withheld one exactly if its filter would have to exclude what it cannot know, and otherwise none. |
| `DeliveryRules.NoQueueNoDrains` | backend/internal/listener/connector_dispatch.go:194-198 | Without a queue nothing is drained. |
| `DeliveryRules.NothingWithoutTheList` | backend/internal/listener/connector_dispatch.go:54-84 | A muted site and a list that cannot be read tell nobody. |

## Left out

- Clocks and timers: times are integers or nondeterministic steps, so how long a backoff, a probe
  or a stop-grace wait takes is not modelled, only that it may end at any point.
- JSON, YAML and SQL text: a config is a map, a document a tree without aliases and comments, a
  table its rows, the notify channel an ordered log.
- Cluster: topics other than a message's own, the contents of payloads, handlers that panic, the
  retention of spilled payloads (the fetch may simply fail), and unreadable notifications.
- Cluster: what a stopped publisher still holds is never sent; such a message counts as in hand
  in `ClusterRuns.Accounted`, and nothing claims it arrives.
- ClusterOrder.DeliveryKeepsPublishOrder: an attempt that commits does so at the attempt itself; a
  statement that timed out and commits only after later ones went out is not modelled.
- ClusterBus.Bus.Hear: a spilled payload whose fetch fails is recorded as missed in the runs also
  at a node without a handler for its topic, where the source does not try to fetch it.
- Manager: the wait for old supervisors has no duration; they may still be winding down and
  reporting when new ones start, which covers both outcomes of `waitForStop`. `Run`'s own loop and
  the upgrading of a connected status to reconnecting are not modelled.
- Reconcile.Manager.ReconcileOnce: all starts of one reconcile bear the one time it was given.
- OpenApiDocument.Document.Publish: parsing and encoding, header comments, tags and styles are not
  modelled, and after a failure the tree may be left part-way, where the source returns no document.
- The theorems about the published document ask for distinct keys in the mappings that are looked
  into, as YAML does.
- FeedHub: authentication, the feed-access lookup, the write side of a stream and its heartbeat
  ticker, and closing within the spread except that it happens some time later.
- EventStream: UTF-8 decoding, reconnection by the browser, and fields split over several writes;
  characters stand for bytes.
- Redaction: UTF-8 is left to bytes, so a cut inside a character is not repaired, as in the source.
- ChatLimiter.AcceptedBound: settings that change during a connection are not covered by the
  bound; a single message is, for any settings.
- Chat hub: session re-validation every so many messages, the mute itself and the sockets.
- MarkdownLabel: text that is not valid UTF-8 (its broken bytes become U+FFFD before escaping), and
  templates.
- Metadata: regular expressions and number parsing are parameters, rounding of floats is not
  modelled, and filter values (`CoerceFilterValue`) would add only an easy member.
- Backfill: database errors other than an unresolved body, and the loop over the three tables.
- Dispatch.ExcludeHoldsOverRuns: relative to the resolver; where an ancestor's row is missing the
  source's own resolver gives a shortened chain without an error (service/category.go, 290-296), and
  an empty one stands for the leaf alone.
- Dispatch: the projection of the event onto the announcement, JSON encoding, panics, and time
  limits; a failing insert is a property of the instance for one event.
- HTTP handlers, routing, sessions, RSS, retention, and the repository interfaces whose
  implementations decide their own properties.
- Fair scheduling: that an enabled step is eventually taken is not assumed, so liveness is stated as
  what is owed, remembered or reached within a number of steps.
