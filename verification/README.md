# Verified model of the database procedure kit

A Dafny 4.11 model of the parts of the kit in which several callers, timers and
servers meet, and of the small languages it speaks. Every theorem is about all
inputs, all runs or all reachable states.

| file | what it models |
|---|---|
| `RestoreRecords`, `RestoreRetry`, `DatabaseNotify` | the vendor-independent notifier: restore records, the retry loop, the object that holds them and the callback queues |
| `OracleNotifyProtocol`, `OracleNotifySafety`, `OracleNotifyTheorems`, `OracleNotifyRuns`, `OracleNotifyCloses`, `OracleNotifyAttempts`, `OracleNotifyClaims`, `OracleNotifyEffects` | Oracle subscriptions as a state machine, its invariant, theorems about whole runs (conservation, shutdown, cancellation, how often connections are closed, how restores are paced), and what each step brings about |
| `PostgresNotifyProtocol`, `PostgresNotifySafety`, `PostgresNotifyRuns`, `PostgresNotifyEffects` | PostgreSQL listeners, whose channels can be listened to again |
| `NotificationQueue` | the promise-chain callback queues of both notifiers |
| `CqnTokens`, `CqnTiling`, `CqnPlan`, `CqnRoundTrip`, `CqnGrammar`, `CqnRefetch`, `CqnMeaning`, `CqnRowIds` | the token reader, parser and printer of CQN statements, the grammar the parser accepts, which rows a printed query selects, and the ROWID queries of a change event |
| `MetadataRegistry`, `MetadataRuns`, `ProcedureListBase` | the procedure-metadata registry, as a state machine and as an object |
| `ProcedureNames` | the name parser and its cache |
| `TextEncoding`, `ResourceTracker` | UTF-8, UTF-16 and decimal lengths; row and byte accounting |
| `PortalDrain`, `PortalOutputs`, `PortalMaterializer` | reading and closing PostgreSQL portals, and what the outputs of a call are |
| `ConnectionHygiene` | session options, transaction and release around one pooled connection |
| `OracleRecords`, `OracleRecordMeaning` | RECORD arguments split into scalar binds, with a semantics of the generated block |
| `PostgresComposites` | composite arguments through JSON |
| `PropertyMaps`, `PropertyLookups`, `PropertyTexts` | property maps over cyclic entity metadata, and which texts they hold |
| `Options`, `Sequences` | shared datatypes and sequence facts |

## How the model is read

* One action of a state machine is the code between two awaits. Which operation
  moves next, whether a server call succeeds and whether it ever answers are
  left open, so a theorem about a run holds in every interleaving.
* A server, a driver or a subscriber that may fail at any time is a function or
  a nondeterministic choice over which the theorems quantify.
* Functions the program takes from elsewhere (case strategy, lower-casing, JSON,
  the test for constructs that cannot be refetched) are parameters, with only the
  facts used of them stated as preconditions.
* Classes carry the fields the program updates in place. Their methods are proved
  equal to the functions and state-machine steps that the theorems are about.
* UTF-16 decoding follows section 2.2 of RFC 2781, UTF-8 encoding section 3 of
  RFC 3629.

Where the code differs from what one would expect, the model follows the code:
an Oracle connection may be closed twice; an unlisten that joins a close whose
connection is already taken does not remove a newer listener; a metadata request
that arrives after the last check of a refresh gets an older answer; a CQN alias
spelled `AS` cannot be read back; a CQN condition with unbalanced parentheses is
accepted; two package lists can share a cache key although their answers differ;
a column of an entity that lies within one of its relations may be displaced from
the paths map; and a transaction whose first statement fails leaves a held runner
at depth -1. For each of these there are theorems that say when it happens.

## Model

| member | source | states |
|---|---|---|
| OracleNotifyRuns.RunsAreSafe | src/adapters/oracle/oracle-notify.ts:81-137 | every state of every run satisfies the invariant: records own their workflows, pooled channels are watched, connections are accounted for, shutdown stages hold |
| OracleNotifySafety.StepKeepsInv | src/adapters/oracle/oracle-notify.ts:723-808 | every step of listen, unlisten, health check, restore and destroy keeps the per-channel invariant |
| OracleNotifyTheorems.StepKeepsSafe | src/adapters/abstract/database-notify.ts:48-163 | every step keeps the invariant together with conservation of connections and the stages of shutdown |
| OracleNotifyRuns.ConnectionsAreConserved | src/adapters/oracle/oracle-notify.ts:347-408 | in every run, each connection ever created is pooled, owned by an operation in flight, or closed |
| OracleNotifyRuns.NothingPooledAfterDestroy | src/adapters/abstract/database-notify.ts:48-92 | once destroy was called the pool only shrinks, whatever registrations and restores still finish |
| OracleNotifyRuns.DestroyEmptiesThePool | src/adapters/abstract/database-notify.ts:56-92 | when destroy settles the pool is empty and stays empty, and every connection is closed or owned by an operation |
| OracleNotifyTheorems.ClearedPoolIsEmpty | src/adapters/abstract/database-notify.ts:83-91 | the pool is already empty when destroy clears it, so clearing drops no connection |
| OracleNotifyRuns.OneWorkflowPerChannel | src/adapters/abstract/database-notify.ts:288-307 | no two restore workflows ever run on one channel |
| OracleNotifyRuns.ChecksReadTheFlag | src/adapters/abstract/database-notify.ts:264-269 | a workflow's check by channel name reads the flag of its own record |
| OracleNotifyRuns.CancellationSticks | src/adapters/abstract/database-notify.ts:215-281 | while a workflow runs no step switches its cancellation off, or gives it another record or channel |
| OracleNotifyRuns.CancelledEndIsUnpooled | src/adapters/oracle/oracle-notify.ts:723-768 | a cancelled workflow that ends leaves its channel out of the pool |
| OracleNotifyRuns.CancelledWorkflowLeavesNothing | src/adapters/oracle/oracle-notify.ts:723-768 | over a run: cancelled at any await, a workflow ends with its channel unpooled |
| OracleNotifyCloses.ClosedAgainExactlyAfterFailedSubscribe | src/adapters/oracle/oracle-notify.ts:380-408 | in every run no connection is closed more than twice, and one is closed a second time, or about to be, if and only if a restore attempt's subscribe on it has failed |
| OracleNotifyCloses.RunsAreSole | src/adapters/oracle/oracle-notify.ts:753-763 | in every run a connection is pooled once or held by one operation, never both, and is not closed while it is |
| OracleNotifyCloses.RejectedSubscribeClosesTwice | src/adapters/oracle/oracle-notify.ts:397-762 | a run that closes one connection twice |
| OracleNotifyAttempts.MaxRetriesBetweenLongDelays | src/adapters/abstract/database-notify.ts:381-417 | in every run, whatever else happens, a workflow begins exactly maxRetries attempts between two long delays |
| OracleNotifyAttempts.MaxRetriesBeforeFirstLongDelay | src/adapters/abstract/database-notify.ts:378-408 | and as many before the first, the one that started it included |
| OracleNotifyAttempts.NoAttemptAfterCancellation | src/adapters/abstract/database-notify.ts:382-415 | in every run a workflow begins no attempt once its record is cancelled or the notifier is destroyed |
| OracleNotifyClaims.RunsAreKnown | src/adapters/abstract/database-notify.ts:288-307 | in every run the workflow that a restore record names as active is running and works on that record, so nobody joins one that is gone |
| OracleNotifyEffects.PoolChangesExactly | src/adapters/oracle/oracle-notify.ts:347-408 | every step takes from the pool and adds to it exactly what it is meant to: an entry enters only when its subscription is confirmed, and leaves only by a close, a restore or the end of destroy |
| OracleNotifyEffects.RegistrationGetsOn | src/adapters/oracle/oracle-notify.ts:347-408 | each answer moves a registration on: a confirmed subscription is pooled, watched and not cancelled; a failed one is closed and what was subscribed before is unlistened |
| OracleNotifyEffects.UnlistenTakesTheConnection | src/adapters/abstract/database-notify.ts:137-163 | unlistening cancels the channel's workflow and starts or joins a close, which takes the pooled connection if no callback is queued |
| OracleNotifyEffects.CloseGetsOn | src/adapters/abstract/database-notify.ts:137-163 | a drained close takes the connection, a released one has closed it, a cleared one is gone |
| OracleNotifyEffects.UnhealthyConnectionIsRestored | src/adapters/abstract/database-notify.ts:340-362 | a check that finds its pooled connection broken starts a restore or joins the running one; one that finds it well leaves the pool and the workflows alone |
| OracleNotifyEffects.RestoreGetsOn | src/adapters/oracle/oracle-notify.ts:723-808 | each answer moves an uncancelled workflow on to a published, watched subscription, or through the closing of its connection to a delay and the next attempt |
| OracleNotifyEffects.ChecksAndCallsStart | src/adapters/abstract/database-notify.ts:344-352 | a tick starts a check of its pooled connection unless one is under way; a call to listen is queued |
| RestoreRetry.RestoreWithRetry | src/adapters/abstract/database-notify.ts:369-420 | the loop over retries makes exactly the checks, attempts and delays of the specified workflow |
| RestoreRetry.ExactlyMaxRetriesBetweenLongDelays | src/adapters/abstract/database-notify.ts:381-417 | between two consecutive long delays there are exactly maxRetries attempts |
| RestoreRetry.FirstLongDelay | src/adapters/abstract/database-notify.ts:378-408 | the first long delay comes after the attempts that the starting counter leaves |
| RestoreRetry.NothingAfterCancellation | src/adapters/abstract/database-notify.ts:382-415 | a check that reads cancelled is the last event of a workflow |
| RestoreRetry.AttemptsFollowAClearCheck | src/adapters/abstract/database-notify.ts:381-385 | every attempt directly follows a check that read not cancelled |
| RestoreRetry.AttemptsUntilDone | src/adapters/abstract/database-notify.ts:381-417 | a workflow makes one attempt in every turn up to the one in which it succeeds or finds itself cancelled, and none after |
| RestoreRecords.CancellingTouchesOneChannel | src/adapters/abstract/database-notify.ts:259-262 | cancelling sets the flag of the channel's record and leaves other channels, running workflows and stored identities alone |
| RestoreRecords.StoppingTouchesOneChannel | src/adapters/abstract/database-notify.ts:201-207 | stopping a health check never un-cancels, ends or forgets a running workflow |
| RestoreRecords.StartingTouchesOneChannel | src/adapters/abstract/database-notify.ts:185-195 | starting one leaves exactly the given timer on the channel's record |
| RestoreRecords.ClearingTouchesOneChannel | src/adapters/abstract/database-notify.ts:275-281 | clearing keeps the record and the cancellation of a running workflow |
| RestoreRecords.MarkingTouchesOneChannel | src/adapters/abstract/database-notify.ts:215-225 | marking active keeps a restoring channel's record and flag |
| RestoreRecords.CancellingSetsTheFlag | src/adapters/abstract/database-notify.ts:259-262 | cancelling sets the flag and completes the pending delay |
| RestoreRecords.StoppingClearsTheTimer | src/adapters/abstract/database-notify.ts:201-207 | stopping clears the timer and nothing else |
| RestoreRecords.StartingSetsTheTimer | src/adapters/abstract/database-notify.ts:185-195 | starting replaces the timer and nothing else, and does nothing after destroy |
| RestoreRecords.ClearingLiftsTheFlag | src/adapters/abstract/database-notify.ts:275-281 | clearing lifts a cancellation exactly if no workflow is left to notice it and the notifier lives |
| RestoreRecords.MarkingLiftsTheFlag | src/adapters/abstract/database-notify.ts:215-225 | marking active lifts the cancellation of a channel without a workflow, and cancels after destroy |
| RestoreRecords.DestroyingCompletesDelays | src/adapters/abstract/database-notify.ts:447-449 | destroying completes every stored record's delay, and stopping all clears every timer |
| DatabaseNotify.RestoreStates.CancelNotificationRestore | src/adapters/abstract/database-notify.ts:259-262 | the object's update is the specified one, including the delay it completes |
| DatabaseNotify.RestoreStates.MarkNotificationActive | src/adapters/abstract/database-notify.ts:215-225 | the object's update is the specified one |
| DatabaseNotify.RestoreStates.ClearNotificationRestoreState | src/adapters/abstract/database-notify.ts:275-281 | the object's update is the specified one |
| DatabaseNotify.RestoreStates.StartConnectionHealthCheck | src/adapters/abstract/database-notify.ts:185-195 | the object's update is the specified one |
| DatabaseNotify.RestoreStates.StopConnectionHealthCheck | src/adapters/abstract/database-notify.ts:201-207 | the object's update is the specified one |
| DatabaseNotify.RestoreStates.BeginDestroy | src/adapters/abstract/database-notify.ts:447-449 | completing the delays record by record equals completing all at once |
| DatabaseNotify.RestoreStates.StopAllConnectionHealthChecks | src/adapters/abstract/database-notify.ts:503-510 | clearing timers record by record equals clearing all at once |
| PostgresNotifySafety.StepKeepsInv | src/adapters/postgres/postgre-notify.ts:83-158 | every step keeps exclusive registrations, unshared and accounted connections, and the stages of shutdown |
| PostgresNotifyRuns.RunsAreSafe | src/adapters/postgres/postgre-notify.ts:83-292 | every state of every run satisfies that invariant |
| PostgresNotifyRuns.ConnectionsAreConserved | src/adapters/postgres/postgre-notify.ts:99-158 | each connection ever created is pooled, owned by an operation, or closed |
| PostgresNotifyRuns.NothingPooledAfterDestroy | src/adapters/postgres/postgre-notify.ts:101-129 | once destroy was called no connection is added to the pool |
| PostgresNotifyRuns.DestroyEmptiesThePool | src/adapters/abstract/database-notify.ts:56-92 | when destroy settles the pool is empty for good |
| PostgresNotifyRuns.UnlistenRemovesWhatItFound | src/adapters/postgres/postgre-notify.ts:252-292 | unless it joins a close that has taken its connection, unlisten removes the connection it found, whoever listens again meanwhile |
| PostgresNotifyRuns.UnlistenLeavesWhatALateCloseMissed | src/adapters/abstract/database-notify.ts:141-142 | when it does join one, the close may finish with the found connection still pooled |
| PostgresNotifyRuns.RelistenDuringASlowUnlisten | src/adapters/abstract/database-notify.ts:137-163 | a concrete run reaches that situation |
| PostgresNotifyEffects.PoolChangesExactly | src/adapters/postgres/postgre-notify.ts:83-158 | every step takes from the pool, adds to it and closes exactly what it is meant to |
| PostgresNotifyEffects.RegistrationGetsOn | src/adapters/postgres/postgre-notify.ts:89-157 | each answer moves a registration on: refused exactly for a channel pooled or pending, pooled once the server listens, cleaned up otherwise, and its channel free again when it ends |
| PostgresNotifyEffects.CloseGetsOn | src/adapters/abstract/database-notify.ts:137-163 | a drained close takes the connection and a cleared one lets the channel be closed anew |
| NotificationQueue.StepKeepsInv | src/adapters/postgres/postgre-notify.ts:160-197 | chains, sizes and call order stay consistent at every step |
| NotificationQueue.StepRefinesFifo | src/adapters/postgres/postgre-notify.ts:166-197 | each step acts on a queue object as on a bounded FIFO: accepting appends, releasing removes the first; a job that starts is the first of its queue, and its handler is called if and only if its connection is the pooled one; no other step calls a handler |
| NotificationQueue.AcceptedExactlyWithinLimit | src/adapters/postgres/postgre-notify.ts:166-190 | in every run an event becomes the last pending job of its channel exactly if the channel is not closing and has fewer pending than the limit; otherwise nothing changes |
| NotificationQueue.CalledExactlyIfPooled | src/adapters/postgres/postgre-notify.ts:180-190 | over every run: a job waits exactly until its turn, and its handler is called exactly once if its connection was pooled at its turn, and never otherwise |
| NotificationQueue.TurnsComeOnce | src/adapters/oracle/oracle-notify.ts:324-325 | over every run no job has a second turn |
| NotificationQueue.TurnComesWhenFirst | src/adapters/postgres/postgre-notify.ts:188-189 | in every run a waiting job may start exactly when it is the first of its queue: none overtakes and no queue gets stuck |
| NotificationQueue.RefusesWhileClosing | src/adapters/oracle/oracle-notify.ts:139-149 | over every run a channel refuses events from the beginning of a close until its completion, and no longer |
| NotificationQueue.JobsGetOn | src/adapters/postgres/postgre-notify.ts:191-196 | a handler that settles and a job that is let go are so, and no other job changes |
| NotificationQueue.OneHandlerAtATime | src/adapters/postgres/postgre-notify.ts:180-190 | two handlers of one queue object never run at once |
| NotificationQueue.CallsFollowAcceptance | src/adapters/oracle/oracle-notify.ts:311-326 | handlers are called in the order of acceptance |
| NotificationQueue.SizeIsExactAndBounded | src/adapters/oracle/oracle-notify.ts:300-332 | the size counter equals the accepted events not yet let go and never exceeds the limit |
| NotificationQueue.IdleChannelsHoldNoQueue | src/adapters/postgres/postgre-notify.ts:191-196 | a channel's queue object is kept only while it has pending events |
| DatabaseNotify.CallbackQueues.EnqueueNotificationPayload | src/adapters/postgres/postgre-notify.ts:160-190 | the object's update on an event is the step of the queue model |
| DatabaseNotify.CallbackQueues.ProcessPayload | src/adapters/postgres/postgre-notify.ts:180-187 | a job's turn is the step of the queue model, and the handlers called are those of the model |
| DatabaseNotify.CallbackQueues.ReleaseJob | src/adapters/postgres/postgre-notify.ts:191-196 | a job's cleanup is the step of the queue model |
| DatabaseNotify.CallbackQueues.BeginNotificationQueueClose | src/adapters/oracle/oracle-notify.ts:139-144 | beginning a close is the step of the queue model, and returns the last job to wait for |
| DatabaseNotify.CallbackQueues.CompleteNotificationQueueClose | src/adapters/oracle/oracle-notify.ts:146-149 | completing a close is the step of the queue model |
| CqnTokens.ReadCqnToken | src/adapters/oracle/oracle-notify.ts:625-692 | the loop that looks ahead for closing quotes returns what a character-by-character lexer defines, errors included |
| CqnTiling.TokensTileTheStatement | src/adapters/oracle/oracle-notify.ts:564-573 | repeated reading yields ordered tokens, and a character is outside all of them exactly when it is white space outside quotes at parenthesis depth 0 |
| CqnTiling.ReadingFailsAsTheLexerDoes | src/adapters/oracle/oracle-notify.ts:652-689 | reading a whole statement fails exactly when the one-pass lexer does, with the same report |
| CqnTiling.QQuotedLiteralIsOneToken | src/adapters/oracle/oracle-notify.ts:625-692 | a q-quoted literal is one token whatever quotes, parentheses and blanks it holds: brackets of the four kinds close with their partner, any other delimiter with itself |
| CqnPlan.ParseCqnRefetchPlan | src/adapters/oracle/oracle-notify.ts:548-622 | the parser's loop and branches compute the specified parse, with the same error for every input |
| CqnGrammar.ParsesExactly | src/adapters/oracle/oracle-notify.ts:548-622 | a statement is accepted with given parts if and only if it holds no comment or terminator, its parts are well-formed, and it can be spelled from them: SELECT projection FROM table, an optional alias with or without AS, an optional WHERE, in any white space and any case of the keywords |
| CqnGrammar.SpelledParses | src/adapters/oracle/oracle-notify.ts:557-609 | parsing a statement gives its parts back however it is spelled; it is a syntax error exactly if the alias is AS without an AS before it |
| CqnGrammar.ParsedPlanIsPrintable | src/adapters/oracle/oracle-notify.ts:584-621 | what the parser returns is trimmed, without comment markers, and its projection holds no token FROM |
| CqnRefetch.RefetchQueryParses | src/adapters/oracle/oracle-notify.ts:708-721 | the printed query parses to the same projection, table and alias with the narrowed condition, except exactly when the alias is AS or the narrowed condition is forbidden; what that condition means is CqnMeaning.QuerySelectsExactlyItsRows |
| CqnMeaning.PrintedConditionIsRead | src/adapters/oracle/oracle-notify.ts:715-720 | tokenized, the printed condition is the plan's own condition in one group, AND, the ROWID column of the alias, IN, and one list of exactly the bind names of the chunk |
| CqnMeaning.QuerySelectsExactlyItsRows | src/adapters/oracle/oracle-notify.ts:507-520 | the query printed for some ROWIDs selects a row if and only if the statement's own condition holds of it and its ROWID is one of them |
| CqnRefetch.GroupIsKeptIffBalanced | src/adapters/oracle/oracle-notify.ts:716-719 | the parenthesis opened before the plan's condition closes right after it if and only if the condition is balanced |
| CqnRefetch.UnbalancedConditionIsAccepted | src/adapters/oracle/oracle-notify.ts:603-609 | the parser accepts a condition that is not balanced |
| CqnRowIds.Collect | src/adapters/oracle/oracle-notify.ts:455-492 | succeeds exactly when every name and ROWID is valid and the distinct ROWIDs fit the limit, and then lists each once under its table name |
| CqnRowIds.SameTableExactly | src/adapters/oracle/oracle-notify.ts:694-706 | two tables are the same, whatever their case, exactly if their own names agree and, when both have a schema, their schemas too |
| CqnRowIds.EachRowIdIsAskedOnce | src/adapters/oracle/oracle-notify.ts:493-520 | the queries of an event ask for every distinct ROWID exactly once, 1 to 1000 in each |
| CqnRowIds.Refetch | src/adapters/oracle/oracle-notify.ts:493-538 | the loops execute those queries, each with its text and its binds, up to and including the first that fails |
| CqnRowIds.HandleChanges | src/adapters/oracle/oracle-notify.ts:446-546 | an unparsable statement and an invalid or over-limit event issue no query; without failures every distinct ROWID is asked for exactly once, and never twice; each executed text selects exactly the rows asked for that satisfy the statement's own condition, unless that is unbalanced or the alias is AS |
| CqnMeaning.BindNamesDiffer | src/adapters/oracle/oracle-notify.ts:510-515 | no two ROWIDs of a query share a bind name |
| CqnMeaning.PlaceholdersAreText | src/adapters/oracle/oracle-notify.ts:513-516 | placeholder lists are text that the printed query may contain |
| MetadataRuns.StepKeepsInv | src/core/procedure-list-base.ts:51-144 | every step keeps single flight, timers, pending retries, snapshots and what callers were promised |
| MetadataRuns.AnswerTakesEffect | src/core/procedure-list-base.ts:120-138 | a query that succeeds in a live registry is shown at once and its timer is gone; one that fails changes no snapshot and leaves a timer that can fire; neither concerns another package |
| MetadataRuns.CallersGetTheAnswer | src/core/procedure-list-base.ts:91-105 | a settled caller has got what the server answered to the query of that fetch, or a failure if the registry was destroyed |
| MetadataRuns.CallsWait | src/core/procedure-list-base.ts:54-70 | a call is refused exactly after destroy; otherwise it waits for a live loop of its package |
| MetadataRuns.CallersWaitForTheirLoop | src/core/procedure-list-base.ts:58-79 | over every run a caller waits exactly as long as its loop is there |
| MetadataRuns.FetchesStartAtTheirNumber | src/core/procedure-list-base.ts:86-93 | over every run the number of a fetch is the step at which it started |
| MetadataRuns.AtMostOneFetchPerPackage | src/core/procedure-list-base.ts:58-79 | no two refresh loops of one package are alive at once |
| MetadataRuns.AnswersAreFreshUnlessJoinedTooLate | src/core/procedure-list-base.ts:81-110 | while the registry lives, a caller's answer comes from a fetch that started no earlier than its call if and only if it did not join after the last check |
| MetadataRuns.LateJoinerGetsAnOlderAnswer | src/core/procedure-list-base.ts:75-89 | a run in which a call joins after the last check and gets an older answer |
| MetadataRuns.EveryRoundWasAskedFor | src/core/procedure-list-base.ts:86-91 | a refresh loop's every further round was asked for by a call made while it ran: it repeats no fetch on its own |
| MetadataRuns.FailuresAreRetried | src/core/procedure-list-base.ts:130-142 | by the answers of the server: while the registry lives, a package whose last query failed has a retry timer or a fetch pending, and no other package has a timer |
| MetadataRuns.OneRetryTimerPerPackage | src/core/procedure-list-base.ts:163-190 | at most one timer per package can fire, and none after destroy |
| MetadataRuns.SnapshotsAreNotLost | src/core/procedure-list-base.ts:125-129 | by the answers of the server: until destroy completes every package shows its last query that succeeded, whatever was fetched meanwhile, and nothing afterwards |
| ProcedureListBase.ProcedureList.FetchProcedureListWithArguments | src/core/procedure-list-base.ts:51-70 | the object's update is the step of the state machine |
| ProcedureListBase.ProcedureList.FetchProcedureListInternal | src/core/procedure-list-base.ts:120-138 | the object's update is the step of the state machine |
| ProcedureListBase.ProcedureList.RunPackageFetch | src/core/procedure-list-base.ts:86-91 | the object's update is the step of the state machine |
| ProcedureListBase.ProcedureList.FetchSettles | src/core/procedure-list-base.ts:72-78 | the object's update is the step of the state machine |
| ProcedureListBase.ProcedureList.RetryFires | src/core/procedure-list-base.ts:169-179 | the object's update is the step of the state machine |
| ProcedureListBase.ProcedureList.Destroy | src/core/procedure-list-base.ts:605-612 | clearing the recorded timers one by one leaves none that can fire |
| ProcedureNames.KeysClashExactlyWhen | src/utils/procedure-name-parser.ts:45-74 | for all package lists: some questions about them share a cache key and have different answers if and only if the joined lists are equal and exactly one is a single non-empty name, or one joined list followed by `:` begins the other |
| ProcedureNames.CleanNamesNeverClash | src/utils/procedure-name-parser.ts:46 | lists of names without `,` and `:` never clash |
| ProcedureNames.ResolvesExactly | src/utils/procedure-name-parser.ts:53-70 | an uncached answer names a package and a procedure if and only if both are non-empty, the package is known, and the text is the two with a dot between them, or the procedure alone when there is one package |
| ProcedureNames.ProcedureNameParser.Parse | src/utils/procedure-name-parser.ts:40-82 | for any package names: the answer is the cached or the parsed one, and is that of an uncached parse against the current snapshot unless a list asked about since the last snapshot can clash with this one |
| ProcedureNames.ServesAnotherAnswer | src/utils/procedure-name-parser.ts:47-51 | every clash is served: after the first question the second one gets the first one's answer instead of its own |
| ProcedureNames.ProcedureNameParser.ReplaceSnapshot | src/core/procedure-list-base.ts:125-128 | a new snapshot starts with an empty, hence valid, cache |
| TextEncoding.EncodingReadsBack | src/adapters/abstract/procedure-resource-tracker.ts:221-242 | the reference UTF-8 encoder loses nothing: its octets read back to the text |
| TextEncoding.DigitCount | src/adapters/abstract/procedure-resource-tracker.ts:202-219 | a number between consecutive powers of ten has that many digits |
| ResourceTracker.MeasureUtf8 | src/adapters/abstract/procedure-resource-tracker.ts:222-242 | the loop returns the length of the UTF-8 form of the string, a lone surrogate counting three |
| ResourceTracker.UnsignedIntegerLength | src/adapters/abstract/procedure-resource-tracker.ts:202-219 | the comparison chain is the number of decimal digits up to the largest safe integer |
| ResourceTracker.MeasureNumber | src/adapters/abstract/procedure-resource-tracker.ts:196-200 | the length of the number's text, sign included |
| ResourceTracker.KeyLengths.MeasureKey | src/adapters/abstract/procedure-resource-tracker.ts:182-193 | the cached length is exact and the cache never exceeds 512 keys |
| ResourceTracker.Tracker.MeasureValue | src/adapters/abstract/procedure-resource-tracker.ts:129-180 | terminates on cyclic graphs and returns the sum of local costs over the reachable objects, each once, or fails as an invalid date makes it |
| ResourceTracker.Tracker.MeasureRow | src/adapters/abstract/procedure-resource-tracker.ts:51-127 | for any valid caches the fast path measures what the graph walk does |
| ResourceTracker.Tracker.AddRow | src/adapters/abstract/procedure-resource-tracker.ts:31-44 | counters and failure are exactly those of counting the row's measure |
| ResourceTracker.Tracker.AddValue | src/adapters/abstract/procedure-resource-tracker.ts:22-29 | counters and failure are exactly those of counting the value's measure |
| ResourceTracker.RowsAcceptedExactlyWithinLimits | src/adapters/abstract/procedure-resource-tracker.ts:31-44 | a sequence of rows is accepted if and only if its number and its bytes fit the limits, and is counted exactly |
| PortalDrain.FetchAndClosePortal | src/adapters/postgres/postgre-result-materializer.ts:329-381 | whatever fails, FETCHes then one CLOSE; served, exactly the cursor's rows or the limit they break; never more than the budget and one row delivered; ends on endless cursors |
| PortalDrain.AddRows | src/adapters/postgres/postgre-result-materializer.ts:347-351 | rows are counted up to and including the first that breaks a limit |
| PortalMaterializer.RecordPortals | src/adapters/postgres/postgre-result-materializer.ts:73-112 | the first pass records the specified portals and stops at the specified error, which PortalOutputs.RecordsTheCursors describes |
| PortalOutputs.RecordsTheCursors | src/adapters/postgres/postgre-result-materializer.ts:73-112 | by the metadata: the first pass stops exactly at the first cursor whose name is missing, unnamed or repeated, and up to there records a portal for a binding if and only if it is a cursor, under the name returned for it, in order |
| PortalOutputs.GathersExactly | src/adapters/postgres/postgre-result-materializer.ts:114-142 | by the metadata: reading succeeds exactly if every cursor ends and all rows and values fit the limits, and gives one output per binding, rows exactly for cursors |
| PortalOutputs.ExpectedExactly | src/adapters/postgres/postgre-result-materializer.ts:63-147 | the whole call succeeds exactly if no binding is at fault and everything fits, and fails with the first fault |
| PortalOutputs.RecordedPortalsDiffer | src/adapters/postgres/postgre-result-materializer.ts:81-111 | no two recorded portals share a name, an unnamed one included |
| PortalMaterializer.ReadOutputs | src/adapters/postgres/postgre-result-materializer.ts:114-142 | the second pass drains what it reads, leaves the rest untouched, and when served gathers the specified outputs |
| PortalMaterializer.ClosePendingPortals | src/adapters/postgres/postgre-result-materializer.ts:383-401 | every pending portal is closed once, whatever CLOSE answers |
| PortalMaterializer.Materialize | src/adapters/postgres/postgre-result-materializer.ts:63-147 | on every path the portal of each cursor before the first fault is fetched and then closed once, and no other is touched; when served it succeeds exactly if no binding is at fault, every cursor ends and everything fits, and then gives one output per binding with exactly the rows of its cursor |
| PortalOutputs.RowsAreCompleteAndBounded | src/adapters/postgres/postgre-result-materializer.ts:114-147 | success holds exactly the rows of all cursors in metadata order within the limit; the row limit fails only when they exceed it |
| ConnectionHygiene.QuotingKeepsValue | src/utils/database-options-executor.ts:193-197 | a captured value written as a literal reads back unchanged |
| ConnectionHygiene.CaptureValues | src/utils/database-options-executor.ts:165-180 | every parameter to be set is captured once with its value, before anything changes |
| ConnectionHygiene.RestoreValues | src/utils/database-options-executor.ts:191-202 | if no statement fails, writing the captured values back restores every session value |
| ConnectionHygiene.ExecuteWithRestoredOracleSession | src/utils/database-options-executor.ts:159-227 | unless the error is marked, every session value is what it was; success means that the operation ran once, under the values asked for, and that no statement failed |
| ConnectionHygiene.ExecuteWithCommands | src/utils/database-options-executor.ts:76-98 | the same for every dialect; an error means that a statement failed or that the commands cannot be carried out |
| ConnectionHygiene.ExecuteValidatedCommands | src/utils/database-options-executor.ts:146-157 | success leaves exactly the local settings asked for, in order; no session value changes |
| ConnectionHygiene.QueryRunner.Release | src/typeorm/driver/oracle/OracleQueryRunner.ts:195-209 | idempotent: only the first call decides, dropping the connection if an error is given |
| ConnectionHygiene.QueryRunner.StartTransaction | src/typeorm/driver/oracle/OracleQueryRunner.ts:214-245 | at any depth: a start that a subscriber refuses clears the active flag, of an outer transaction too, and leaves the session alone; otherwise the flag is set, and the depth grows only when the server has begun |
| ConnectionHygiene.QueryRunner.CommitTransaction | src/typeorm/driver/oracle/OracleQueryRunner.ts:251-263 | an outermost commit that succeeds makes exactly the open work durable and leaves nothing of a transaction; a deeper one only counts down; an error means that something failed |
| ConnectionHygiene.QueryRunner.RollbackTransaction | src/typeorm/driver/oracle/OracleQueryRunner.ts:269-285 | an outermost rollback drops the open work, a deeper one what came after its savepoint; nothing becomes durable |
| ConnectionHygiene.Transaction | src/typeorm/entity-manager/EntityManager.ts:143-184 | at any depth, whatever fails, the connection is held with its values restored or was dropped once; an outermost one that succeeds has run the operation once as asked and its work is durable, and nothing but complete work ever is; a nested one hands its work on or takes back its own only; held, the runner is back at its depth, one lower exactly if the beginning statement failed |
| ConnectionHygiene.GetEntityManager | src/core/connection-base.ts:25-74 | a connection that was handed out but cannot be used is dropped |
| ConnectionHygiene.Execute | src/core/execute-base.ts:60-86 | an acquired connection goes back at most once and then clean, otherwise it is dropped; success returns it with the operation durable, once and under the options asked for; a call that fails made nothing durable, or its complete work by a commit that it reached; an error means that something failed or the commands are refusable |
| OracleRecords.NameSource.CreateName | src/adapters/oracle/oracle-bindings.ts:140-148 | the search ends with a lower-case name that was not reserved, and reserves it |
| OracleRecords.Build | src/adapters/oracle/oracle-bindings.ts:150-325 | the arrays filled argument by argument are the specified block, and its generated names collide with nothing |
| OracleRecords.PrepareRecordInput | src/adapters/oracle/oracle-bindings.ts:371-421 | as far as field names go, accepts exactly objects without conflicting or unknown fields, and gives each field its value or NULL |
| OracleRecordMeaning.FillBindings | src/adapters/oracle/oracle-bindings.ts:206-219 | the binds carry every input, whole or field by field |
| OracleRecordMeaning.SplittingKeepsMeaning | src/adapters/oracle/oracle-bindings.ts:184-241 | for any procedure, the values rebuilt after the generated block are those it leaves when called with the inputs themselves |
| OracleRecordMeaning.SplitCallEqualsDirectCall | src/adapters/oracle/oracle-result-materializer.ts:61-78 | the generated block and the direct call give the same out values, argument by argument |
| PostgresComposites.IndexCompositeInputKeys | src/adapters/postgres/postgre-bindings.ts:235-251 | fails exactly for metadata in which two fields share a key |
| PostgresComposites.NormalizeCompositeInput | src/adapters/postgres/postgre-bindings.ts:181-220 | accepts exactly inputs without unknown or doubly supplied fields, and lists every attribute |
| PostgresComposites.TransformCompositeRecord | src/adapters/postgres/postgre-result-materializer.ts:255-291 | refuses exactly unknown columns and colliding names, and keys the rest by output name |
| PostgresComposites.IndexOutputKeys | src/adapters/postgres/postgre-result-materializer.ts:403-412 | finds the first column of a name whatever its case |
| PostgresComposites.CompositeRoundTrip | src/adapters/postgres/postgre-result-materializer.ts:221-291 | a record keyed by transformed names, whose JSON reads back as it was written, survives both directions, missing fields as NULL, the server's columns in any order |
| PropertyMaps.BuildRepositoryPropertyMap | src/typeorm-extend/repository/abstract-typeorm-repository.ts:153-211 | terminates on any cyclic metadata graph and builds the specified map |
| PropertyMaps.Shrinks | src/typeorm-extend/repository/abstract-typeorm-repository.ts:166-206 | each call has less to visit, or the same and moves from a visited metadata to one that is not |
| PropertyMaps.RepetitionsAreConsecutive | src/typeorm-extend/repository/abstract-typeorm-repository.ts:182-187 | along a chain of calls a metadata recurs only at once, so at most twice |
| PropertyMaps.ChainsAreShort | src/typeorm-extend/repository/abstract-typeorm-repository.ts:176-208 | the recursion is never deeper than twice the number of metadata |
| PropertyMaps.MergeKeepsLocated | src/typeorm-extend/repository/abstract-typeorm-repository.ts:260-275 | merging two records of the same place keeps every text at its own path |
| PropertyMaps.PathsAreWhereTheySay | src/typeorm-extend/repository/abstract-typeorm-repository.ts:117-132 | for safe names every text of the paths map is the dotted path at which it is stored, `$path` that of its record |
| PropertyTexts.TextsAreExactlyThePaths | src/typeorm-extend/repository/abstract-typeorm-repository.ts:117-132 | if no relation of an entity lies within another, wherever its columns lie, the map leads to a text exactly where the graph shows one: a column that every relation spares, a relation that is not followed, a `$path`, or a text of a followed relation's map; and the text is the dotted path that leads to it |
| PropertyTexts.MapTexts | src/typeorm-extend/repository/abstract-typeorm-repository.ts:166-211 | the same for the map under any prefix, chain of calls and number of relations handled |
| PropertyTexts.UnderRelation | src/typeorm-extend/repository/abstract-typeorm-repository.ts:182-208 | below a relation that is not followed nothing is left; below one that is, its map's texts and exactly those columns of the entity that its map leaves room for |
| PropertyTexts.RelationsAreFound | src/typeorm-extend/repository/abstract-typeorm-repository.ts:176-208 | each relation is found with its path or with the map of its entity merged into what the columns left there, undisturbed by the other relations |
| PropertyTexts.RecordsSayWhereTheyAre | src/typeorm-extend/repository/abstract-typeorm-repository.ts:190-196 | at any depth, the record of a followed relation has its own dotted path as `$path` |
| PropertyTexts.TextsComeFromPaths | src/typeorm-extend/repository/abstract-typeorm-repository.ts:244-275 | every text is found under the dotted path of a property that a walk over the graph reaches, even where relations overlap |
| PropertyTexts.NodeTexts | src/typeorm-extend/repository/abstract-typeorm-repository.ts:182-187 | the whole map of an entity that refers to its own kind and has its parent's key as a column |
| PropertyTexts.GrandparentKeyIsMissing | src/typeorm-extend/repository/abstract-typeorm-repository.ts:182-187 | that map lacks a path which the graph has |
| PropertyLookups.MergedText | src/typeorm-extend/repository/abstract-typeorm-repository.ts:260-275 | a merge keeps the source's texts and exactly those of the target for which the source has room |
| PropertyLookups.SetText | src/typeorm-extend/repository/abstract-typeorm-repository.ts:240-258 | setting a value adds its text and keeps exactly the texts apart from its path |

## Left out

Assumptions and parts of the modelled files that the model does not have:

* Calls that land between a promise settling and its own reaction: the queued start of a registration or a restore and the cleanup of a settled workflow belong to the step before them. The registry is finer: there the check, the settling and the removal are separate steps, and a retry timer fires only when no such reaction is pending.
* Oracle subscription names are random; the model draws a name that is new at the moment of publication.
* `closeSingleConnection` rejecting, and loggers that throw, in the notifiers.
* The wall clock: delays, the five-minute retry and the shutdown timeouts are steps that may happen at any time.
* PostgreSQL restore records: a restore may close its channel or listen again at any time, so no theorem depends on which of them is cancelled.
* Bodies of user callbacks, payload decoding and row serializers; the queues only know that a handler was called and settled.
- CqnRefetch.RefetchQueryParses: the test for constructs that cannot be refetched is a parameter, because its word list is a constant of the program.
- CqnMeaning.QuerySelectsExactlyItsRows: which rows satisfy the statement's own condition, and which the projection shows, is left to the server; without parentheses that balance there is no such condition (CqnRefetch.GroupIsKeptIffBalanced).
- CqnTokens.ReadCqnToken: characters are code points, so a quote delimiter outside the basic plane is one character.
- CqnPlan.ParseCqnRefetchPlan: upper case is modelled as far as it can decide an ASCII keyword.
- CqnRowIds.Collect: table names are compared after ASCII upper-casing, which is all that validated identifiers need.
- ConnectionHygiene.Execute: the operation is one statement of its own, which leaves captured parameters and local settings alone; a connection that the driver hands out but the call-timeout hook rejects is not modelled; nor is which error is reported when several occur.
- OracleRecords.Build: identifier, data-type and size checks of the arguments and the conversion of temporal values are not repeated; a NULL record counts as a record of NULL fields.
- OracleRecords.PrepareRecordInput: the rejection of array, nested, non-Buffer RAW and invalid temporal field values is not repeated; "accepts exactly" is about the names of the fields.
- PortalMaterializer.Materialize: output names are listed by binding, so two bindings that transform to one name are not merged; decoding of composite outputs is in PostgresComposites.
- PostgresComposites.CompositeRoundTrip: fields without serializers; that JSON reads back what was written is a precondition, which big integers and byte buffers do not meet.
- PropertyTexts.TextsAreExactlyThePaths: property names are safe (not empty, `$path`, `__proto__`, `constructor` or `prototype`), and no relation lies within another of the same entity.
- PropertyMaps.BuildRepositoryPropertyMap: records are values, so update in place and sharing of sub-records are not captured; the second map, of database column names, follows the same recursion and is left out.
- ResourceTracker.Tracker.MeasureValue: the object graph is a map from identities to properties; getters that throw are left out.
* Catalog SQL, metadata decoding other than the uniqueness of field names, LOB streams and result-set draining of Oracle, listener registration SQL, connection health probes, the event bus, the queue manager and the TypeORM fork outside `transaction` and `release`: single-branch code or thin wrappers.
