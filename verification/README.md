# Verified models of the RPC platform's stateful components

This project models, in Dafny, the components of the platform that carry state over time, and proves what they keep:

| area | modules | form |
|---|---|---|
| Bounded notification queue with workers, parked consumers, blocked producers, retry timers, abort and stop | `QueueModel`, `QueueProofs`, `QueueRetries`, `QueueLives`, `NotificationQueueObject` | a state machine whose steps are the stretches between two awaits, results over all interleavings, and the queue object proved to take exactly those steps |
| Sessions in Redis: Lua scripts, MULTI blocks, expiry, rotation, cleanup | `SessionModel`, `SessionLifetime`, `SessionCounter`, `SessionSurvival`, `SessionInterleaving`, `SessionContents`, `SessionManagerObject`, `SessionClientObject` | atomic operations on a store with one clock; interleavings in which a program may act on any stale value it ever read |
| Sliding-window limiter | `RateLimiter` | the pruned, expiring sorted set against the full request log |
| E-mail outbox shared by any number of processors | `OutboxModel`, `OutboxProofs`, `EmailOutboxObject` | rows, claims, outcome transactions, crashes; the loop as a method |
| SMTP client | `SmtpReplies`, `SmtpDialogue`, `DotStuffing` | incremental parser against a whole-stream reading; sender against a receiver following section 4.5.2 of RFC 5321 |
| Emitter and event bus | `EventBusModel`, `EventBusProofs`, `EventBusObject` | the index against a flat log of subscriptions, step by step and over whole runs |
| Layer chain and semaphore permits | `ConsLists`, `RpcRunner` | cons lists against sequences; permits taken and released by one call |
| Circular-reference cleaner | `GraphCleaner` | the visited-set traversal against the unfolding of the graph, cut where it returns to itself |
| LRU cache, validator cache, path cache | `SchemaCache` | the cache against the trace of its uses; cached answers against fresh ones |
| Last administrator | `LastAdmin`, `LastAdminOutcomes`, `LastAdminRuns` | guards over users, roles and assignments, one after the other and overlapping |

Each mutable component is a class whose methods are proved against a function of the old state; the results are lemmas
about those functions, so they hold of every sequence of method calls. `dafny verify dfyconfig.toml` checks everything.

## What the proofs found

Where a natural claim does not hold of the code, the code is kept as it is and the exact condition is proved.

- The server releases a permit twice in exactly two cases, as long as writes do not throw: the method throws `null` or
  `undefined`, so that reading `error.code` throws again inside the catch block; or an extra layer has released the permit
  and halted, and `proc()` then throws while the access log asks it for the access (`RpcRunner.PermitBalanceIff`,
  `RpcRunner.DoubleReleasesHappen`).
- Two requests in one millisecond share a member of the limiter's sorted set and count once
  (`RateLimiter.CountIsLogCountIff`, `RateLimiter.SameMillisecondUndercounts`).
- A rotation without a given successor moves `expires_at` and leaves `expires_at_sec`, so the extend script may call the
  new session expired at once (`SessionLifetime.DefaultRotationAgreesIff`, `SessionLifetime.DefaultRotationDiesEarly`,
  with times in `SessionLifetime.RotatedSessionDiesHalfway`). No caller in the repository uses that branch.
- A plain SETEX rewrite of a session destroyed in between brings its key back and leaves the counter one short; it does
  so exactly when its own guard lets it write and the key is neither live nor lost to expiry
  (`SessionCounter.BlindWriteBalancedIff`; a run that does it is `SessionCounter.DestroyedSessionComesBack`). Over a whole
  run the counter is short by exactly the number of such rewrites (`SessionCounter.CounterIsExact`).
- A changed agent is written back with the session as it was read, an older `last_seen_at` included; if that lies further
  back than idle time and tolerated skew, the session is stored but invalid
  (`SessionInterleaving.StaleRewriteInvalidatesIff`).
- Extending a session gives the user's set that session's deadline, which may be earlier than that of another session of
  the set; destroying all sessions of the user then overlooks the other one
  (`SessionManagerObject.DestroyAllMissesIff`; a run that ends there is `SessionManagerObject.LiveSessionUnlisted`).
- An array reached by two paths disappears from the cleaned tree the second time, because only records are taken out of
  the visited set again (`GraphCleaner.CleanIsCutIff`, `GraphCleaner.SharedArrayVanishes`).
- Publishing with action `*` calls lasting entity-wildcard subscriptions twice, and counts once subscriptions there twice;
  everything else is called once (`EventBusProofs.EachOnceIff`, `EventBusProofs.InvokedIsCallsIff`).
- A colon inside an entity, or in an action before its last character, lets an event reach a subscription that did not ask
  for it; without one it never does (`EventBusProofs.OnlyMatchingReachedIff`, `EventBusProofs.ColonEntitiesCollide`).
- The path cache of the schemas answers a request with the getter of another one if an action ends in a dot and another
  action, and in no other case (`SchemaCache.ActionsRightIff`, `SchemaCache.DottedActionsCollide`).
- Dot stuffing doubles dots after a bare LF, a bare CR and the two Unicode separators, which the receiver does not undo
  (`DotStuffing.Transparency`, `DotStuffing.BareLineFeedDotIsDoubled`).
- SMTP lines that arrive while no read is waiting are dropped; none is lost exactly as long as no arrival completes or
  begins more replies than reads are waiting, which a server that answers one command at a time guarantees
  (`SmtpDialogue.EveryLineIsReadIff`, `SmtpDialogue.LockStepAnswersEveryRead`).
- The last-admin guards and the writes they protect are separate statements. With any number of operations overlapping, an
  administrator is certain to be left if and only if the pending writes together spare some present one; the guard's
  threshold of two is enough when nothing is pending and not when one write is (`LastAdminRuns.InterleavedSafetyIff`,
  `LastAdminRuns.RunIsSafeIff`, `LastAdminRuns.FewPendingIsCareful`, `LastAdminRuns.OverlappingDeletionsLeaveNobody`).
  The guard also refuses to delete an inactive holder of an admin role while one other active administrator is left
  (`LastAdmin.DeleteRefusedIff`).
- The claim statement of the outbox accepts failed rows with attempts left, but no reachable row is in that state
  (`OutboxProofs.OnlyPendingIsListed`, `OutboxProofs.FinalIsForever`).
- An edit may give a role an empty name, which the check for taken names passes over; with that exception role names stay
  distinct (`LastAdminOutcomes.NamesStayDistinct`, `LastAdminOutcomes.EmptyNamesCollide`).
- An LRU limit of zero or less behaves as a limit of one (`SchemaCache.LruKeepsMostRecent`).
- The stop function of one `process` call releases the parked consumers and fails the blocked producers of all of them
  (`NotificationQueueObject.NotificationQueue.StopProcessing`).
- `keepAlive` is documented as the only way to extend a session; `updateLastSeen` extends one too. The model follows the code.

## Assumptions

- Everything between two awaits is one step; a Lua script, a MULTI block, a single SQL statement and an SQL transaction
  are each one step; a transaction that reports an error has changed nothing. A SELECT with ORDER BY and LIMIT may
  break ties in any way; a selection loop stands for it.
- A Redis key is live until the clock has passed its deadline. Clock readings, network outcomes, fresh ids and tokens
  are parameters; ids are fresh, hashes and payloads are uninterpreted.
- JavaScript numbers are unbounded integers, and reals for delays; text is a sequence of decoded characters.
- A queue item's payload, id and enqueue time are carried by the serial number of its push.
- `proc()` called without a context behaves the same each time within one call; any other failure of the access log is a
  write that throws. A remote method is an outcome, not code.
- Outbox rows start pending with no attempts and at least one attempt allowed. The semaphore is a counter.
- Compiling a schema is a pure function of the schema: the same schema always compiles to a validator that behaves the same.
- The object graph given to the cleaner has distinct keys per record.
- In `SessionModel` the time between a program's clock reading and its store operation is at most `delay`.

## Model

| member | source | states |
|---|---|---|
| `QueueProofs.NoLostWakeup` | lib/notification/queue.js:106-241 | in every reachable state of every interleaving, queued items and parked consumers never coexist, a blocked producer implies something pending that will wake it, no item was ever given to an aborted consumer, and no parked consumer belongs to an aborted group |
| `QueueProofs.StepKeepsWakeup` | lib/notification/queue.js:35-241 | each single step, from any state satisfying the wakeup invariant, keeps it |
| `QueueProofs.QuietMeansDrained` | lib/notification/queue.js:106-232 | no deadlock: when nothing is in flight, a parked worker means an empty queue and no blocked producer, and producers stay blocked only if no worker is left |
| `QueueProofs.FlushFacts` | lib/notification/queue.js:214-221 | a flush leaves the queue or the waiting list empty, serves consumers from the front, and touches nothing else |
| `QueueProofs.StepCopies` | lib/notification/queue.js:35-165 | each step leaves the number of places every push's item is in unchanged, except that a push puts its own item in one place |
| `QueueProofs.StepCounts` | lib/notification/queue.js:35-165 | each step keeps the metrics equal to what the history records, and `enqueued` grows exactly on a push |
| `QueueProofs.Conservation` | lib/notification/queue.js:35-165 | over every run each push's item is in exactly one place, `enqueued` is the sum of processed, dropped, queued, handed, in flight, waiting for retry and discarded by stop, and every handler start ended in success, drop, retry or is still running |
| `QueueProofs.ProcessServesQueue` | lib/notification/queue.js:55-85 | `process` starts as many workers as asked for, at least one; once each has passed its loop test the first items of the queue are in their hands, one each and in order, and the workers for whom there was none are parked |
| `QueueLives.StepWorkers` | lib/notification/queue.js:106-126 | no step makes or loses a worker, except that process starts some, an aborted group's worker leaves at the loop test, a stopped and empty queue lets its worker go, and an abort or a stop releases parked ones |
| `QueueLives.WorkerConservation` | lib/notification/queue.js:106-126 | over every run the workers started for a group are before the loop test, at an item, in a handler, parked, or have left in one of those ways; so a worker goes back to the loop test after success and failure alike |
| `QueueLives.WorkersStay` | lib/notification/queue.js:79-94 | as long as a group is not aborted, no process call is stopped and the queue is not, every worker started for it is there |
| `QueueLives.RestMeansSettled` | lib/notification/queue.js:106-165 | if more workers of some group were started than have left, a queue at rest is empty, blocks nobody, and each item ever pushed was, exactly once, processed or dropped after its last permitted failure |
| `QueueLives.UndisturbedGroupSettles` | lib/notification/queue.js:55-94 | in particular with a group that was started and neither aborted nor released nor stopped |
| `QueueLives.AbortedGroupsRetire` | lib/notification/queue.js:79-109 | once a run has aborted a group, by its signal or the stop function, the items in its workers' hands only get fewer, whatever follows, and none of its workers is parked |
| `QueueLives.ProducerConservation` | lib/notification/queue.js:194-241 | each call of enqueue that began to wait is in line or woken, or was pushed, aborted or rejected, exactly once |
| `QueueLives.WokenInCallOrder` | lib/notification/queue.js:223-230 | whoever is woken called before whoever is still blocked, and both lines are in call order |
| `QueueLives.RoomIsOffered` | lib/notification/queue.js:118-142 | after a success, after a dropped item without onFailed, and after onFailed has returned, the first blocked producer is woken exactly if there is room; a retry and a running onFailed wake nobody |
| `QueueLives.ItemsKeepTheirPush` | lib/notification/queue.js:35-53 | an enqueue is pushed at once exactly if the queue runs and is shorter than its limit or has none; over every run each item, wherever it is, carries the attempt number it was pushed with |
| `QueueRetries.BoundedRetries` | lib/notification/queue.js:121-158 | no handler runs more than `maxAttempts` minus the pushed attempt number (at least one) times, an item is dropped after exactly that many failures, retry delays are those of the failed attempt, and nothing is discarded before the queue stops |
| `QueueRetries.QuietMeansSettled` | lib/notification/queue.js:106-165 | when all is quiet and a worker is parked, nobody is blocked and every item ever pushed was, exactly once, processed or dropped after its last permitted failure |
| `QueueRetries.BackoffIsMonotoneAndCapped` | lib/notification/queue.js:147-150 | delays never shrink from one attempt to a later one and never exceed `maxDelayMs` |
| `QueueRetries.BackoffDoubles` | lib/notification/queue.js:147-150 | the first delay is the base delay and each further one twice its predecessor, both capped |
| `QueueRetries.BackoffIs` | lib/notification/queue.js:147-150 | the delay after attempt n is the smaller of the base delay times two to the n and the maximum |
| `QueueRetries.BoundedWork` | lib/notification/queue.js:106-165 | in any run the items make at most as many moves as the weighted remaining attempts at its start plus four per permitted run of each item pushed meanwhile |
| `QueueRetries.FirstAttemptsInPushOrder` | lib/notification/queue.js:49-51 | the queue is always a block of retries followed by first attempts in push order, and until a stop the first attempts handed out are exactly the pushes so far, in order, none skipped |
| `NotificationQueueObject.NotificationQueue.constructor` | lib/notification/queue.js:13-33 | a new queue is the initial state |
| `NotificationQueueObject.NotificationQueue.FlushWaiting` | lib/notification/queue.js:214-221 | queued items go to parked consumers first to first until one side runs out, as `QueueProofs.FlushFacts` describes |
| `NotificationQueueObject.NotificationQueue.MakeSpace` | lib/notification/queue.js:223-230 | wakes the first blocked producer exactly if there is one and there is room |
| `NotificationQueueObject.NotificationQueue.RejectAll` | lib/notification/queue.js:232-241 | returns and empties both waiting lists, leaving the rest alone |
| `NotificationQueueObject.NotificationQueue.PushItem` | lib/notification/queue.js:49-52 | appends, counts and flushes; the serial is the previous count |
| `NotificationQueueObject.NotificationQueue.Enqueue` | lib/notification/queue.js:35-53 | takes the machine's step; accepts exactly if not stopped and shorter than `maxSize` or without limit, waits if full and not cancelled |
| `NotificationQueueObject.NotificationQueue.ResumeEnqueue` | lib/notification/queue.js:46-52 | a woken producer pushes without rechecking room or stop |
| `NotificationQueueObject.NotificationQueue.AbortBlocked` | lib/notification/queue.js:194-212 | an aborted producer leaves the list and nothing else changes |
| `NotificationQueueObject.NotificationQueue.WorkerTop` | lib/notification/queue.js:106-109 | a worker with an aborted signal leaves, otherwise it takes the head of the queue, leaves a stopped queue or parks |
| `NotificationQueueObject.NotificationQueue.BeginJob` | lib/notification/queue.js:111-117 | a handed item is started and counted in flight |
| `NotificationQueueObject.NotificationQueue.HandlerDone` | lib/notification/queue.js:118-120 | success is counted, the job leaves the flight and a producer may be woken |
| `NotificationQueueObject.NotificationQueue.HandlerFailed` | lib/notification/queue.js:128-165 | the last failure drops the item (through onFailed if given), an earlier one arms a timer with the next attempt and the delay of this one |
| `NotificationQueueObject.NotificationQueue.OnFailedReturned` | lib/notification/queue.js:141-142 | space is offered when onFailed is over |
| `NotificationQueueObject.NotificationQueue.TimerFired` | lib/notification/queue.js:152-157 | a retry goes to the head of the queue and is flushed, or is discarded if the queue has stopped |
| `NotificationQueueObject.NotificationQueue.SignalAborted` | lib/notification/queue.js:175-181 | exactly the parked consumers of the group leave the waiting list |
| `NotificationQueueObject.NotificationQueue.Filtered` | lib/notification/queue.js:178 | keeps the entries of other groups in order |
| `NotificationQueueObject.NotificationQueue.StopProcessing` | lib/notification/queue.js:79-83 | aborts the group, then releases all remaining consumers and fails all blocked producers, whatever their group |
| `NotificationQueueObject.NotificationQueue.Stop` | lib/notification/queue.js:87-94 | the first stop rejects everybody and discards timers and queue; a second one does nothing |
| `SessionLifetime.ComputeTtlExact` | src/sessionManager.js:299-313 | no TTL exactly when less than a second is left; otherwise at least one second, at most the idle time, never beyond the expiry, and maximal |
| `SessionLifetime.ValidExactlyUntil` | src/sessionManager.js:430-467 | a session is accepted exactly up to the earlier of its expiry and its idle limit with tolerance, so once invalid it is invalid ever after |
| `SessionLifetime.ExtendKeeps` | src/sessionManager.js:30-44 | the extend script keeps every stored session below the limit of its login, whatever the idle time and the throttle |
| `SessionLifetime.LoginsOnlyGrow` | src/client.js:695-765 | the expiry given to a login is never changed by anything later |
| `SessionLifetime.AbsoluteLifetime` | src/sessionManager.js:30-44 | over every interleaving of logins, extensions, rewrites and rotations, each stored session carries its login's `expires_at` and its second, and is gone two seconds (plus `delay`) after that second |
| `SessionLifetime.LifetimeBoundIsTight` | src/sessionManager.js:38-43 | an extension in the last millisecond of the expiry second reaches that bound up to one millisecond |
| `SessionLifetime.DefaultRotationAgreesIff` | src/sessionManager.js:643-672 | after a rotation without a given successor the two expiry fields agree exactly when the old session had no second or the same one |
| `SessionLifetime.DefaultRotationDiesEarly` | src/sessionManager.js:643-672 | when they disagree, the extend script calls the session expired before its `expires_at` |
| `SessionLifetime.RotatedSessionDiesHalfway` | src/sessionManager.js:643-672 | a session rotated that way half a day after its login is called expired a day and a second after the login, half a day before its `expires_at` |
| `SessionCounter.CounterIsLivePlusLost` | src/sessionManager.js:20-24 | under every interleaving without plain rewrites the counter is the number of live keys plus the number lost to expiry, hence never negative and never below the live count |
| `SessionCounter.CounterIsExact` | src/sessionManager.js:20-24 | under every interleaving, plain rewrites included, the counter is the live keys plus those lost to expiry less the destroyed sessions that rewrites brought back, so it is right if and only if there were none |
| `SessionCounter.BlindWriteBalancedIff` | src/sessionManager.js:513-525 | a plain rewrite keeps that balance if and only if its own guard refuses it, or the key is live, or the key was lost to expiry; otherwise the counter is one short |
| `SessionCounter.DestroyedSessionComesBack` | src/client.js:297-319 | a run from the empty store, login, read, destruction, agent rewrite, that ends with one live session and a counter of zero |
| `SessionSurvival.TouchInTime` | src/sessionManager.js:476-531 | a call in time succeeds, throttled or not, and leaves the key good for another pause |
| `SessionSurvival.ActInTime` | src/client.js:321-359 | so do a keep-alive and an address change, which move the client to the fresh id and remove the old key |
| `SessionSurvival.ActiveClientKeepsSession` | src/sessionManager.js:30-44 | from a login on, a client whose pauses stay below `idleTtl - extendThreshold` succeeds with every act up to a second before the absolute expiry, and its session is still stored and valid after one more pause |
| `SessionSurvival.WritesAreThrottled` | src/sessionManager.js:36-41 | for any sequence of clock readings, consecutive writes to a session are at least `extendThreshold` seconds apart, and so is the first from a stored `last_seen_at_sec` |
| `SessionSurvival.SecondWriteIff` | src/sessionManager.js:30-44 | after a call that wrote, a second one writes if and only if it comes at least `extendThreshold` seconds later and not after the expiry second |
| `SessionInterleaving.CallCarries` | src/sessionManager.js:30-44 | a call on a carried session is answered as updated or throttled at any delay, and carries it for another pause |
| `SessionInterleaving.RewriteCarries` | src/client.js:297-319 | storing a changed agent, or patching a legacy session, carries the session from the writer's clock reading, whatever value it read before, as long as that is no staler than `slack` |
| `SessionInterleaving.CreatedIsCarried` | src/sessionManager.js:347-396 | a session made by a login, a keep-alive or an address change is carried from the clock reading of its creator |
| `SessionInterleaving.ActiveSessionSurvives` | src/sessionManager.js:476-531 | among all interleavings with other programs, delays and rewrites of the session itself with stale values, a session whose last use is never a pause behind has every call answered as valid and stays stored up to a second before its absolute expiry; it stays valid too if delay and staleness together are within the tolerated skew, or the delay within a pause and the staleness within throttle and skew |
| `SessionInterleaving.StaleRewriteInvalidatesIff` | src/client.js:297-319 | after an agent rewrite of an unexpired session it is valid if and only if the `last_seen_at` written lies within idle time and tolerated skew |
| `SessionContents.ExtendWrites` | src/sessionManager.js:30-44 | the extend script changes `last_seen_at` and `last_seen_at_sec` of one session, its deadline and the deadline of the named user's set, and nothing else; unless it answers updated it changes nothing |
| `SessionContents.SuccessorsAre` | src/sessionManager.js:581-595 | field by field what keep-alive, address rotation and rotation without a successor keep of a session and what they change |
| `SessionContents.RewriteWrites` | src/sessionManager.js:513-525 | a plain rewrite stores the very session given, exactly if a second or more is left, within expiry and idle time, and touches no other key |
| `SessionContents.RewriteAndExpireWrites` | src/client.js:297-319 | the rewrite with EXPIRE stores the same and gives the session's user's set the key's deadline |
| `SessionContents.TouchSucceedsIff` | src/sessionManager.js:476-531 | true exactly for a stored session not past its expiry second, or a legacy one with a second to live, which gets both times; only times of that session change |
| `SessionContents.KeepAliveSucceedsIff` | src/sessionManager.js:539-619 | succeeds exactly within idle time and a second before the expiry; then only the successor is new, the old key gone and the counter unchanged; past a limit the session is destroyed |
| `SessionContents.SessionsKeepTheirUser` | src/sessionManager.js:30-44 | over every interleaving, stale rewrites and rotations included, each stored session belongs to the user its login was given |
| `SessionManagerObject.SweepRemovesExactlyInvalid` | src/sessionManager.js:791-874 | a cleanup removes exactly the invalid sessions and those with unparsable text among the scanned keys, keeps all others unchanged, and takes exactly that many off the counter, repeated keys or not |
| `SessionManagerObject.SweepUnlists` | src/sessionManager.js:822-858 | a cleanup takes from each user's set exactly the swept sessions of that user whose text parses |
| `SessionManagerObject.DestroyEachRemovesExactly` | src/sessionManager.js:751-769 | destroying a user's ids removes exactly the live ones among them, keeps other users' sets, and takes exactly that many off the counter |
| `SessionManagerObject.CreationIsListed` | src/sessionManager.js:368-383 | creating a session of a known user adds exactly one key, one count and one set member, touches no other user's set, and gives the set the lifetime of the key |
| `SessionManagerObject.DestroyUnlists` | src/sessionManager.js:20-24 | destroying a live session takes exactly its id out of the user's set, which goes with its last member |
| `SessionManagerObject.DestroyAllMissesIff` | src/sessionManager.js:30-44 | after an extension, with the store left alone until t, destroying all the user's sessions overlooks another listed live session if and only if t lies after the extended key's deadline and not after the other's |
| `SessionManagerObject.LiveSessionUnlisted` | src/sessionManager.js:30-44 | a run from the empty store after which a live session of a user is in no set, so destroying all sessions of the user misses it |
| `SessionManagerObject.SessionManager.GetSession` | src/sessionManager.js:403-422 | the stored session, or none |
| `SessionManagerObject.SessionManager.CreateSession` | src/sessionManager.js:347-396 | succeeds exactly when a second or more is left; on success writes key, counter and user set together, on failure nothing |
| `SessionManagerObject.DestroyRemovesOne` | src/sessionManager.js:184-190 | destroying removes that key and no other, and takes one off the counter exactly if the key was there |
| `SessionManagerObject.SessionManager.DestroySession` | src/sessionManager.js:702-736 | the same for the user found in the stored session; false if there is none |
| `SessionManagerObject.SessionManager.UpdateLastSeen` | src/sessionManager.js:476-531 | the five script answers and the rewrite of legacy sessions do what the survival results speak about |
| `SessionManagerObject.SessionManager.KeepAlive` | src/sessionManager.js:539-619 | refuses for each of the four reasons with the matching clean-up, else replaces the session by its successor |
| `SessionManagerObject.SessionManager.Rotate` | src/sessionManager.js:628-694 | with a given successor or one made from the old session, which is what is stored; succeeds exactly if the successor can be created, and then the old session is gone, otherwise nothing changed; nothing happens if there is neither |
| `SessionManagerObject.SessionManager.Renewed` | src/sessionManager.js:643-672 | the successor made from the old session: new times and CSRF token, the risk the reason asks for |
| `SessionManagerObject.SessionManager.DestroyAllUserSessions` | src/sessionManager.js:745-783 | removes exactly the keys the user's set lists and the set, counts the live ones, and leaves all other keys and sets as they were |
| `SessionManagerObject.SessionManager.CleanupOne` | src/sessionManager.js:822-858 | one fetched key: destroyed if its text does not parse (then for no user) or its session is invalid, counted only if it was still there |
| `SessionManagerObject.SessionManager.CleanupBatch` | src/sessionManager.js:816-858 | one batch read at once and then swept, repeated keys included, counted exactly |
| `SessionManagerObject.SessionManager.CleanupExpiredSessions` | src/sessionManager.js:791-874 | the sweep of all scanned keys, with exact counts of checked and destroyed |
| `SessionClientObject.Client.StartSession` | src/client.js:695-765 | a login succeeds exactly with a positive absolute TTL; it stores the whole session with its expiry in both units and no `last_seen_at_sec`, removes the session the client came with, and the counter grows by one unless that session was live |
| `SessionClientObject.Client.ApplyBinding` | src/client.js:297-359 | a changed agent is stored, a changed address rotates over HTTP and is tolerated on a socket, otherwise nothing happens; the successor keeps login, user and expiry and never loses risk |
| `SessionClientObject.Client.RotateForAddress` | src/client.js:321-359 | the successor has the new address and at least medium risk, and keeps user, agent and lifetime; the old session is gone, or nothing changed if less than a second was left |
| `SessionClientObject.Client.RaiseRiskLevel` | src/client.js:572-644 | raises exactly a stored session to a higher level while a second of its expiry and of its reduced idle time is left; then only the risk and the deadline change, the deadline being the latest within the expiry and three quarters (medium) or half (high) of the idle time |
| `RateLimiter.CountIsLogCountIff` | lib/redis-utils.js:96-124 | for requests in time order the stored set counts the distinct milliseconds the full log has in the window, hence the requests themselves if and only if no two of them in the window share a millisecond |
| `RateLimiter.StrictTimesCountExactly` | lib/redis-utils.js:96-124 | at strictly increasing milliseconds the count is the number of logged requests in the window |
| `RateLimiter.SameMillisecondUndercounts` | lib/redis-utils.js:101-107 | two requests in one millisecond both pass a limit of one |
| `RateLimiter.AllowedMillisecondsBounded` | lib/redis-utils.js:96-124 | every interval of `windowSec`, open on either side, has allowed requests in at most `limit` different milliseconds |
| `RateLimiter.AtMostLimitPerWindow` | lib/redis-utils.js:96-124 | at strictly increasing milliseconds every such interval holds at most `limit` allowed requests |
| `RateLimiter.SlidingWindow.Check` | lib/redis-utils.js:96-124 | prune, add, count and expire give the transaction's count and leave exactly the unexpired times of the window; allowed exactly within the limit, else to be retried after a quarter of the window, at least a second |
| `OutboxProofs.OutboxSafety` | application/domain/notification/processEmailOutbox.js:49-84 | for any number of processors, crashes included: one holder per row, and it is in `sending`; attempts and SMTP messages per row never exceed `max_attempts`; records are numbered 1..`attempt_count`; a success is only the last record of a sent row |
| `OutboxProofs.FinalIsForever` | application/lib/repository/notification/emailOutbox/markSending.js:5-18 | a sent or failed row stays exactly as it is, whatever runs afterwards |
| `OutboxProofs.OnlyPendingIsListed` | application/lib/repository/notification/emailOutbox/listPending.js:5-19 | in reachable states the rows a listing may pick are exactly the due pending ones |
| `OutboxProofs.FailureSchedule` | application/lib/repository/notification/emailOutbox/markFailed.js:9-20 | after the k-th failure a row waits min(3600, 60k) seconds and is closed exactly when its attempts are used up |
| `OutboxProofs.ListingIs` | application/lib/repository/notification/emailOutbox/listPending.js:5-19 | listed rows are eligible and ascend by priority number and then by age; no eligible row left out comes before a listed one; their number is the smaller of the eligible rows and the limit, 10 if none, at least 1, at most 50 |
| `OutboxProofs.StatementsWrite` | application/lib/repository/notification/emailOutbox/markFailed.js:5-31 | field by field what claim, success and failure write to row and records, also for a missing row, and exactly when the claim is refused |
| `EmailOutboxObject.PassAttemptsEachOnce` | application/domain/notification/processEmailOutbox.js:49-84 | an undisturbed pass attempts every listed row exactly once, touches no other row, and reports the rows in listing order with their true outcome |
| `EmailOutboxObject.OneRow` | application/domain/notification/processEmailOutbox.js:49-84 | a row another processor took is skipped without a trace; an attempted one is reported with its outcome, unless its failure cannot be recorded, when it stays in sending and the pass ends |
| `EmailOutboxObject.PassEndsAtFirstLoss` | application/domain/notification/processEmailOutbox.js:49-84 | a pass ends at the first row whose failure cannot be recorded, having reported the rows before it and left those behind it alone |
| `EmailOutboxObject.EmailOutbox.FirstOf` | application/lib/repository/notification/emailOutbox/listPending.js:13 | a row with the smallest priority, and the oldest of those |
| `EmailOutboxObject.EmailOutbox.ListPending` | application/lib/repository/notification/emailOutbox/listPending.js:5-19 | a listing, of which `OutboxProofs.ListingIs` says what it is |
| `EmailOutboxObject.EmailOutbox.MarkSending` | application/lib/repository/notification/emailOutbox/markSending.js:5-18 | the claim succeeds exactly on an open row and changes its status only |
| `EmailOutboxObject.EmailOutbox.MarkFailed` | application/lib/repository/notification/emailOutbox/markFailed.js:5-31 | row update and attempt record together, or nothing |
| `EmailOutboxObject.EmailOutbox.MarkSent` | application/lib/repository/notification/emailOutbox/markSent.js:5-32 | row update and attempt record together, or nothing |
| `EmailOutboxObject.EmailOutbox.ProcessRow` | application/domain/notification/processEmailOutbox.js:50-83 | claim, deliver, record; a success that cannot be recorded is recorded as a failure |
| `EmailOutboxObject.EmailOutbox.ProcessItems` | application/domain/notification/processEmailOutbox.js:49-84 | the loop does the rows in order and ends early exactly when a failure cannot be recorded |
| `EmailOutboxObject.EmailOutbox.Process` | application/domain/notification/processEmailOutbox.js:35-90 | nothing while delivery is disabled, else one listing and its rows |
| `SmtpReplies.CompleteConcat` | application/lib/notification/smtpEmailSender.js:38-46 | the complete lines of a text in two parts are those of the first part, then those of its rest continued by the second |
| `SmtpReplies.ChunkInvariance` | application/lib/notification/smtpEmailSender.js:29-53 | feeding decoded text in any pieces, also cut between CR and LF, ends in the state feeding it whole ends in |
| `SmtpReplies.ReadsGetTheRepliesInOrder` | application/lib/notification/smtpEmailSender.js:25-59 | n waiting reads get exactly the first n replies of the stream, in order, each ending with its first last line; what follows the last line feed stays buffered |
| `SmtpReplies.UnawaitedRepliesAreDropped` | application/lib/notification/smtpEmailSender.js:38-59 | a read issued after a chunk arrived unawaited sees none of its complete lines |
| `SmtpDialogue.NothingMissedIff` | application/lib/notification/smtpEmailSender.js:42-52 | no line of a flush is missed if and only if the replies in it, a begun one included, do not outnumber the waiting reads |
| `SmtpDialogue.EveryLineIsReadIff` | application/lib/notification/smtpEmailSender.js:25-59 | for reads and data in any order and cut in any way, the reads are given all complete non-empty lines of the stream in order if and only if that holds at every arrival |
| `SmtpDialogue.LockStepAnswersEveryRead` | application/lib/notification/smtpEmailSender.js:55-76 | a server that answers each read with one reply, in any chunks, is heard completely: each read gets its own reply and nothing is left over |
| `SmtpDialogue.BuiltReplyIsReply` | application/lib/notification/smtpEmailSender.js:38-53 | for a three-digit code and texts without line ends, the lines code-hyphen-text, the last with a space, each ended by CR LF, are one reply with exactly these lines |
| `SmtpDialogue.BuiltReplyIsRead` | application/lib/notification/smtpEmailSender.js:46-53 | a waiting read fed such a reply in any chunks gets exactly its lines, and not before the last character has arrived |
| `SmtpReplies.ReplyReader.TakeLine` | application/lib/notification/smtpEmailSender.js:46-52 | one line goes to the first waiting read and resolves it if it is a last line |
| `SmtpReplies.ReplyReader.FlushLines` | application/lib/notification/smtpEmailSender.js:38-53 | splits the buffer, keeps an unfinished line, gives away the others |
| `SmtpReplies.ReplyReader.TakeLines` | application/lib/notification/smtpEmailSender.js:46-52 | the lines of a flush are taken in order, each by whichever read is first at that moment |
| `SmtpReplies.ReplyReader.DataArrived` | application/lib/notification/smtpEmailSender.js:29-33 | a chunk is read together with what the last one left, as `SmtpReplies.ChunkInvariance` needs |
| `SmtpReplies.ReplyReader.StartRead` | application/lib/notification/smtpEmailSender.js:55-59 | a new read queues behind the waiting ones and takes complete lines still buffered |
| `SmtpReplies.ReplyReader.SocketFailed` | application/lib/notification/smtpEmailSender.js:34-36 | rejects every waiting read in order and leaves none |
| `DotStuffing.Transparency` | application/lib/notification/smtpEmailSender.js:7 | the receiver finds the end of data exactly where the sender put it, and gets the message unchanged if and only if no dot stands behind a CR, a Unicode separator, or an LF without CR |
| `DotStuffing.BareLineFeedDotIsDoubled` | application/lib/notification/smtpEmailSender.js:7 | a dot behind a bare line feed reaches the receiver doubled |
| `EventBusModel.AddRefines` | lib/event.js:110-129 | adding a listener is appending to the flat log, or nothing when name and handler are there already |
| `EventBusModel.EmitRefines` | lib/event.js:84-108 | emitting calls the log's subscriptions of the name in order and removes exactly its once subscriptions |
| `EventBusModel.OffRefines` | lib/event.js:139-146 | removing a listener is cancelling its subscription in the log |
| `EventBusModel.ClearRefines` | lib/event.js:158-161 | clearing a name is forgetting its subscriptions in the log |
| `EventBusProofs.PublishRefines` | lib/event-bus.js:243-259 | publishing on the index calls what publishing on the log calls and ends in the same log |
| `EventBusProofs.NamesMatch` | lib/event-bus.js:76-99 | the names of an event without ambiguous colons reach exactly the matching subscriptions, and two of them coincide exactly for action `*` |
| `EventBusProofs.SubscribedTo` | lib/event-bus.js:76-137 | a subscription to an entity and an action is called for exactly the unambiguous events of that entity, all of them if the action is empty or `*`, else those of that action |
| `EventBusProofs.OnlyMatchingReachedIff` | lib/event-bus.js:76-99 | an event reaches only subscriptions that ask for it if and only if its entity has no colon inside and its action none before its last character |
| `EventBusProofs.PublishCallsMatchingOnce` | lib/event-bus.js:203-265 | for such an event with another action than `*`, each matching subscription is called exactly once and no other one, exact name first, then entity, then everything, each group in subscription order; `handlersInvoked` is that number; once subscriptions that matched are gone |
| `EventBusProofs.EachOnceIff` | lib/event-bus.js:203-265 | such an event calls every matching subscription exactly once if and only if its action is not `*` or nothing lasting is subscribed under the entity wildcard |
| `EventBusProofs.InvokedIsCallsIff` | lib/event-bus.js:245-249 | `handlersInvoked` is never below the number of calls, and equal to it if and only if the action is not `*` or nothing under the entity wildcard fires once |
| `EventBusProofs.StarActionCallsTwice` | lib/event-bus.js:86-99 | with action `*` a lasting entity-wildcard subscription is called twice, a once subscription once |
| `EventBusProofs.ColonEntitiesCollide` | lib/event-bus.js:76-80 | an event whose entity has a colon calls the subscription of another entity that does not match it |
| `EventBusProofs.OnceFiresOnce` | lib/event-bus.js:172-195 | on the log, over every sequence of subscriptions, publications and removals, a once subscription is called at most once and is gone after its call |
| `EventBusProofs.LogStepIs` | lib/event-bus.js:107-137 | a valid new subscription stands last; unsubscribing takes exactly that handler's under that name, clearing a name all under it, clearing without an entity everything; none of them calls anybody |
| `EventBusProofs.EmitterRefinesLog` | lib/event.js:84-161 | over every run from an empty emitter (subscribe, once, unsubscribe, publish, clear, any listener limit) the index says what the flat log says and has called the same handlers in the same order; each live subscription is well made and there once |
| `EventBusProofs.ReachablePublish` | lib/event-bus.js:203-265 | on every emitter a run can produce, an unambiguous event with another action than `*` calls each live matching subscription exactly once and no other one, and reports that number |
| `EventBusProofs.OnceFiresOnceInEmitter` | lib/event.js:84-108 | the calls of every run of the emitter are those of a history in which no once subscription occurs twice or is still subscribed |
| `EventBusObject.Emitter.EmitName` | lib/event.js:84-108 | the loop calls all listeners and keeps exactly those not once; an `error` name without listeners is reported |
| `EventBusObject.Emitter.Add` | lib/event.js:110-129 | a duplicate is refused, a listener over the limit is added and reported |
| `EventBusObject.Emitter.Remove` | lib/event.js:139-146 | takes the listener out where it stands first |
| `EventBusObject.Emitter.ClearListeners` | lib/event.js:158-161 | removes all listeners of one name and no other |
| `EventBusObject.Emitter.Count` | lib/event.js:169-173 | the number of listeners of a name, zero for an unknown one |
| `EventBusObject.EventBus.SubscribeTo` | lib/event-bus.js:107-137 | takes the step of the index machine; refuses an empty entity, reads an empty action as the whole entity, and reports a duplicate exactly when handler and name are there |
| `EventBusObject.EventBus.SubscribeAll` | lib/event-bus.js:144-164 | subscribes to the global wildcard |
| `EventBusObject.EventBus.Cancelled` | lib/event-bus.js:133-136 | the function a subscription returns takes the unsubscribing step |
| `EventBusObject.EventBus.ClearEvent` | lib/event-bus.js:381-401 | without an entity everything is forgotten and the count reset, else one name |
| `EventBusObject.EventBus.GetEventNames` | lib/event-bus.js:86-99 | exact name, entity wildcard and global wildcard, as far as they apply |
| `EventBusObject.EventBus.CountListeners` | lib/event-bus.js:246-249 | the number of calls that emitting to the names makes, repeated names counted repeatedly |
| `EventBusObject.EventBus.EmitEach` | lib/event-bus.js:252-261 | calls the listeners of each name in turn, later names seeing what earlier ones removed |
| `EventBusObject.EventBus.PublishEvent` | lib/event-bus.js:203-265 | an invalid event is refused without effect; a valid one takes the publishing step, its listeners counted beforehand |
| `ConsLists.ViewOf` | lib/cons-list.js:24-30 | reading back a list built from an array gives the array, with correct sizes in every cell |
| `ConsLists.OfView` | lib/cons-list.js:201-210 | building from the array of a list gives the list |
| `ConsLists.ReversedIsInvolution` | lib/cons-list.js:121-129 | reversing twice gives the original |
| `ConsLists.JoinedConcat` | lib/cons-list.js:36-59 | merging runs of lists one after the other is merging them all |
| `ConsLists.FromArray` | lib/cons-list.js:24-30 | the list whose sequence is the array, with correct sizes |
| `ConsLists.ToArray` | lib/cons-list.js:201-210 | the sequence of the list, from which `ConsLists.OfView` rebuilds it |
| `ConsLists.ToReversed` | lib/cons-list.js:121-129 | a list whose sequence is the reverse, so that reversing twice gives the list back |
| `ConsLists.Equals` | lib/cons-list.js:88-101 | true exactly for equal sequences |
| `ConsLists.Merge` | lib/cons-list.js:36-59 | the concatenation of any number of lists, empty ones included, with correct sizes and no argument changed |
| `ConsLists.PrependAll` | lib/cons-list.js:50-56 | one list copied in front of another |
| `RpcRunner.RanIsPrefix` | lib/cons-list.js:233-239 | exactly the function layers up to and including the first that halts or throws run |
| `RpcRunner.InvokedIff` | src/rpc-pipeline.js:29-87 | the method of a call runs if and only if no extra layer halts or throws, cookies and `proc()` do not throw, and the access is public or there is a session, the permission is held where one is asked for, and the CSRF check passes |
| `RpcRunner.PermitBalanceIff` | src/server.js:342-411 | with well-behaved extra layers and writes that do not throw, a call gives back exactly the permit it took, unless the method is reached and throws null or undefined, or an extra layer halts and `proc()` throws; in exactly these cases it gives back one too many |
| `RpcRunner.DoubleReleasesHappen` | src/rpc-pipeline.js:94-117 | one concrete call for each of the two cases, and one without either that balances |
| `RpcRunner.DefaultBalanceIff` | src/server.js:342-411 | on the default chain with any failing writes, the permits balance if and only if the call took none or nothing throws after the release, spelled out case by case |
| `RpcRunner.Server.constructor` | src/rpc-pipeline.js:156-157 | the chain is the extra layers followed by restore, authorize and invoke |
| `RpcRunner.Server.RunAuthorize` | src/rpc-pipeline.js:29-87 | releases exactly when it refuses, and says whether it halted or threw |
| `RpcRunner.Server.RunInvoke` | src/rpc-pipeline.js:118-154 | releases once on every path and says whether an exception leaves it |
| `RpcRunner.Server.RunLayer` | lib/cons-list.js:233-239 | each kind of layer releases, halts and throws as the balance results assume |
| `RpcRunner.Server.RunChain` | lib/cons-list.js:233-239 | runs the layers up to the first that stops, and the permits are what those layers release |
| `RpcRunner.Server.Rpc` | src/server.js:342-411 | the change in permits over one call, the access log's own failures included, and whether it ends in an exception; a rejected call takes none |
| `GraphCleaner.ResultHasNoParents` | lib/common.js:556-588 | on every finite graph, cyclic or not, the result has no `parent` key at any depth |
| `GraphCleaner.CleanIsCutIff` | lib/common.js:556-588 | on every finite graph, cyclic or not, the result is the unfolding cut where a path returns to an object on it, if and only if no array is reached by two paths; otherwise it is smaller |
| `GraphCleaner.CleanIsUnfoldingIff` | lib/common.js:556-588 | on graphs acyclic apart from `parent`, the result is the full unfolding if and only if no array is reached by two paths; otherwise it is smaller |
| `GraphCleaner.SharedArrayVanishes` | lib/common.js:556-588 | a record with one array under two keys keeps only the first entry |
| `GraphCleaner.BackReferenceIsCut` | lib/common.js:556-588 | a record that refers to itself keeps everything but that reference |
| `GraphCleaner.Cleaner.RemoveCircularRefs` | lib/common.js:556-588 | the recursion on a shared visited set terminates and computes the cleaned value and that set |
| `GraphCleaner.Cleaner.CleanArray` | lib/common.js:564-571 | map and filter over the items, threading the visited set |
| `GraphCleaner.Cleaner.CleanRecord` | lib/common.js:573-587 | the loop over the entries, threading the visited set |
| `SchemaCache.LruKeepsMostRecent` | lib/schema-validate.js:7-29 | after any operations the ordered keys are exactly the `limit` (at least one) most recently used distinct keys |
| `SchemaCache.FoundIsLastSet` | lib/schema-validate.js:7-29 | whatever the operations, a key found has the value it was set to last |
| `SchemaCache.CachedIsComputed` | lib/schema-validate.js:64-74 | a lookup through the cache answers what computing anew would, hit or miss, and keeps the cache right, as long as requests with one key compute the same |
| `SchemaCache.AnswersAreFresh` | lib/schema-validate.js:64-74 | so does every request of any sequence, evictions included |
| `SchemaCache.AlwaysFreshIff` | lib/schema-validate.js:64-74 | every sequence of requests is answered as if compiled anew if and only if no two admitted schemas share their serialised text and compile differently |
| `SchemaCache.CacheKeyInjective` | lib/schema-validate.js:142-169 | for dot-free actions a path key determines the request |
| `SchemaCache.CachedPathIsResolved` | lib/schema-validate.js:142-169 | on a fixed tree and for dot-free actions the cached path lookup answers what walking the tree answers, and stays right |
| `SchemaCache.PartsJoin` | lib/schema-validate.js:148-158 | the parts of an entity path are dot-free and join to the path |
| `SchemaCache.JoinedParts` | lib/schema-validate.js:148-158 | dot-free parts are exactly what their joint path splits into |
| `SchemaCache.ResolvedIff` | lib/schema-validate.js:148-166 | the getter found is exactly the one that stands, under the action's name with `Schema` behind it, in the module to which the nodes along the entity's parts lead |
| `SchemaCache.PathResolver.Follow` | lib/schema-validate.js:148-158 | the loop finds what the parts lead to, or nothing as soon as one is missing |
| `SchemaCache.PathResolver.FindGetter` | lib/schema-validate.js:142-169 | the lookup through the cache, which for dot-free actions answers what the tree holds and leaves the cache right |
| `SchemaCache.PathsRightIff` | lib/schema-validate.js:142-169 | the path lookup is right on every tree and after every history of admitted requests if and only if no two of them share a key |
| `SchemaCache.ActionsRightIff` | lib/schema-validate.js:142-169 | with any entities, it is right if and only if no action ends in a dot and another action; dot-free actions always are |
| `SchemaCache.DottedActionsCollide` | lib/schema-validate.js:142-169 | for every entity, part and action a tree and two requests, the second of which is answered with the getter of the first although the tree holds nothing for it |
| `SchemaCache.LRUCache.constructor` | lib/schema-validate.js:7-11 | an empty cache |
| `SchemaCache.LRUCache.GetValue` | lib/schema-validate.js:13-19 | a hit moves its entry to the newest end, a miss changes nothing |
| `SchemaCache.LRUCache.SetValue` | lib/schema-validate.js:21-28 | the entry becomes the newest; a new key in a full cache evicts the oldest |
| `SchemaCache.LRUCache.GetOrCompute` | lib/schema-validate.js:64-74 | answers as a fresh computation would if the cache was right, and leaves it right |
| `LastAdmin.StepKeepsAdmin` | application/domain/user/changeRole.js:5-36 | no single successful operation leaves the system without an active administrator or unseats the seeded admin roles |
| `LastAdmin.AlwaysAnAdmin` | application/lib/repository/user/countActiveAdmins.js:5-18 | from a seeded state, no sequence of role assignments and removals, deletions, (de)activations and role edits leaves none |
| `LastAdmin.InterleavedGuardsFail` | application/domain/user/delete.js:5-22 | two deletions whose guards both ran before either write remove the last two administrators |
| `LastAdminRuns.LeftAfterWrites` | application/lib/repository/user/countActiveAdmins.js:5-18 | after any list of unlinking, deleting and deactivating writes exactly those administrators are left that none of them deletes or deactivates and that keep an admin role none of them takes |
| `LastAdminRuns.TwoDeletions` | application/domain/user/delete.js:12-19 | two overlapping deletions remove exactly their two targets, so nobody is left if and only if these were all |
| `LastAdminRuns.InterleavedSafetyIff` | application/domain/user/delete.js:12-19 | whatever pending writes are made, in any order, an administrator is left if and only if some present one is neither deleted nor deactivated by them and keeps an admin role none of them takes |
| `LastAdminRuns.RunIsSafeIff` | application/domain/user/changeRole.js:23-30 | over all runs with any number of overlapping operations, an administrator is certain at every point if and only if each guard passed while somebody was spared by all pending writes and its own |
| `LastAdminRuns.FewPendingIsCareful` | application/domain/user/activate.js:15-22 | a guard that counts more administrators than pending writes, its own included, spares somebody, and so does any passing guard when nothing is pending |
| `LastAdminRuns.OverlappingDeletionsLeaveNobody` | application/domain/user/delete.js:5-22 | the run in which both deletions pass their guards and are made, with two administrators at first and none at last |
| `LastAdminRuns.OperationsAreRuns` | application/domain/user/activate.js:5-27 | each of the seven operations run alone is such a run and leaves the tables as the operation does |
| `LastAdmin.DeleteRefusedIff` | application/domain/user/delete.js:12-17 | an existing user's deletion is refused exactly when the user holds an admin role and one active administrator is left, even where deleting an inactive holder would change nothing |
| `LastAdmin.ActiveAdminsAre` | application/lib/repository/user/countActiveAdmins.js:5-18 | the counted users are exactly the active, undeleted holders of an admin role as `hasAdminRole` sees them |
| `LastAdminOutcomes.AdminsAre` | application/lib/repository/user/hasAdminRole.js:5-17 | both queries spelled out over users, roles and links |
| `LastAdminOutcomes.OutcomeIs` | application/domain/user/changeRole.js:5-36 | each of the seven operations succeeds if and only if none of its checks fails, and is refused with the error of the first that does |
| `LastAdminOutcomes.Written` | application/domain/role/update.js:37-56 | a success writes one record, field by field as given, and nothing else |
| `LastAdminOutcomes.RemovedCanBeAssigned` | application/lib/repository/user/changeRole.js:16-50 | a removed role can be assigned again, which restores the tables, unless it is `super_admin` |
| `LastAdminOutcomes.NamesStayDistinct` | application/domain/role/update.js:27-32 | over every run no two roles, deleted ones included, share a name other than the empty one |
| `LastAdminOutcomes.EmptyNamesCollide` | application/domain/role/update.js:27-32 | two edits to an empty name pass the check |
| `LastAdminOutcomes.OnlyUnusedRolesGo` | application/domain/role/delete.js:22-30 | a role becomes deleted only by its deletion and while nobody holds it, and is never revived |
| `LastAdmin.UserAdministration.ChangeRole` | application/domain/user/changeRole.js:5-36 | every guard in order with its error, else the assignment row is set or cleared; errors change nothing |
| `LastAdmin.UserAdministration.DeleteUser` | application/domain/user/delete.js:5-22 | every guard in order with its error, else the user is marked deleted |
| `LastAdmin.UserAdministration.SetActive` | application/domain/user/activate.js:5-27 | every guard in order with its error, else the flag is set |
| `LastAdmin.UserAdministration.EditRole` | application/domain/role/update.js:5-68 | system roles and taken names are refused, an edit without fields is refused, else exactly the given fields change |
| `LastAdmin.UserAdministration.AddRole` | application/domain/role/create.js:5-43 | an empty or taken name is refused, else an active role is added |
| `LastAdmin.UserAdministration.RemoveRole` | application/domain/role/delete.js:5-56 | system roles and roles in use are refused, else the role is marked deleted |

## Left out

- SessionCounter.CounterIsLivePlusLost: leaves out the plain SETEX rewrites, which can break the balance; `SessionCounter.CounterIsExact` counts them in.
- SessionSurvival.ActiveClientKeepsSession: one client's acts, each at the clock reading used for it; `SessionInterleaving.ActiveSessionSurvives` covers other programs, delays and rewrites.
- SessionInterleaving.ActiveSessionSurvives: a raised risk level of the session itself, which shortens its idle time, is not among the events allowed.
- SessionLifetime.AbsoluteLifetime: rotation without a given successor is excluded, since it changes the expiry of a login; the two DefaultRotation members treat it.
- LastAdmin.AlwaysAnAdmin: for operations that run one after the other; `LastAdminRuns.RunIsSafeIff` has the exact condition for overlapping ones.
- EventBusProofs.PublishCallsMatchingOnce: handlers that subscribe, unsubscribe or publish while being called are not modelled, and neither are their asynchronous errors.
- QueueProofs.NoLostWakeup: a worker's step from a finished handler to its next loop test is two steps, which allows more interleavings than the program has.
- Queue: a custom `onFailed` that calls back into the queue is a separate sequence of steps; logging and the snapshot of metrics are omitted, and so is the overflow of `2 ** attempt` in floating point.
- Sessions: `invalidateAllUserSessions`, the reconciliation of the counter, how a session text becomes unparsable (the cleanup is told which are), logging, and the fields of the session state that do not influence any branch.
- Sessions: everything in `validateSession` before the reaction to a changed address or agent, and the detection of suspicious activity.
- Limiter: its answer when Redis fails.
- Outbox: composing and rendering messages, recipient resolution, the SMTP dialogue around the replies, and progress of a row whose processor crashed while it was `sending`.
- SmtpReplies.ChunkInvariance: speaks of decoded text; the code decodes each chunk by itself, so a multi-byte character cut between two chunks reads differently.
- SMTP: decoding of UTF-8, timeouts, TLS.
- Event bus: `EventIterator`, `publishAsync`, statistics other than the count of published events, warnings.
- RPC: transports, the `request` path, broadcasting, and what a remote method does.
- Schema cache: properties a schema module inherits from JavaScript's own objects, compilation and formatting of validation errors, and changes of the schema tree while entries are cached.
- Administration: creation and activation of imported users, checks for missing arguments, fields without influence on a guard, and audit records.
- Transport, database drivers, configuration, the scheduler and the query optimizer: outside the components above.
