# FAN iD: verified models of the concurrent core

These Dafny modules model the state machines at the heart of FAN iD and prove what each of them
keeps over every run. The backend's services are transactions over locked rows joined by an outbox;
the web client adds a leased lock between browser tabs. Each of them appears here twice: as a
transition system, whose runs carry the main theorems, and as a class whose methods change their
fields the way the source changes its rows and variables. The stores and services, the HTTP client
and the throttle keep the history of their calls as a run of the transition system, so what is
proved of every run is stated again as what each method guarantees; the middleware works through its
service, and a lock attempt is one process among the runs of its system.

| Modules | What they model |
|---|---|
| `IdempotencyStore`, `IdempotencyProtocol`, `IdempotencyAnswers`, `IdempotencyDesk`, `IdempotencyMiddleware` | the idempotency table as a lock, its concurrent protocol with crashes and purges, the service, and the driver around a handler |
| `EventModel`, `EventHandlers`, `EventRules`, `EventRuns`, `EventRecords`, `EventNames`, `EventSweep`, `EventDesk`, `SalesTimeline` | an event's life from draft to completion with its categories and outbox, the completion sweep, and the phases derived from the schedule |
| `AccessModel`, `AccessRuns`, `AccessAnswers`, `AccessDesk`, `AdmissionIntegrity`, `SessionRules`, `AssignmentLog`, `ReportProofs`, `Commission` | admission sessions, scanner assignments, ticket scans, the one-off final report and its money split |
| `ScannerCodes`, `ScannerChallenges`, `ChallengeRuns`, `ChallengeAnswers`, `ScannerSecurity` | one-time codes that guard destructive scanner actions, exceptions through nested transactions, and the service on a connection with savepoints |
| `CrossTabLock`, `RefreshLockStorage`, `HttpReplay` | the browser's cross-tab refresh lock and the single replay of a request |
| `EntityTags`, `OptimisticLock`, `Decimal`, `Text` | versions in headers, and compare-and-set beside saves that do not compare |
| `Throttle`, `ThrottleLateness`, `ThrottleDesk` | the fixed-window rate limit over a shared cache, how late its calls may come, and the throttle itself |

A run is a sequence of actions and `After` the state it reaches, so a lemma about `After(run)` is a
statement about every reachable state, and one about `run + more` relates any two states of a run.

What a caller is told is stated apart from how it is computed. The services' methods say in terms of
the stored rows which of their answers is given when, and what is written; and where an answer stands
for something that happened before, a theorem over all runs says what. A used ticket is one that was
admitted once and a void one was refunded (`ScanToldExactly`, `VoidMeansRefunded`); a replay or a
conflict stands for an earlier execution of its key (`LogDecidesReplay`, `ConflictMeansUnanswered`);
a record in the outbox tells the request that sent it (`EveryRecordTellsItsRequest`,
`RefundsAskedExactly`); a report tells the first build (`ReportTellsFirstBuild`); a challenge was
allowed when it was issued (`ChallengesWereAllowed`); and the session is lost exactly when some
answer ended it (`SessionTellsRun`).

Where the code does not simply meet its promise, a theorem gives the exact condition:

- The cross-tab lock excludes two refreshes exactly if no timer fires 5/3 s late or later
  (`MutualExclusionExactly`). The lease itself covers the task only a little below that, since the
  40 ms settling delay also counts against it (`LeaseCoverageExactly`).
- The idempotency store behaves as a plain map from (user, key) to the answer exactly if handlers
  end within the orphan guard (`RefinementExactly`), whatever purges do. That no key runs twice at
  once needs more: with purges that spare running handlers, the same condition is exact
  (`AtMostOneLiveExactly`). The service does not see to that, so as it stands no limit on handlers
  suffices (`NoLimitSuffices`): a retry does not renew `expires_at`, and a purge may remove the
  record under it. If records were taken over only some margin before they expire, the condition
  on guard, margin and retention would be exact again (`TakeoverRuleExactly`).
- A repeated request is answered from its first run exactly if no purge ran between the two later
  than the record's expiry (`RetryIsReplayedExactly`).
- Completion saves without the version, so an ETag read before it still matches: an event's version
  stands exactly as long as its row does, but for completion (`VersionTellsAllButCompletion`).
- The throttle counts each window exactly, iff its cache calls come at most one tick after the clock
  reading (`WindowLimitExactly`). A later call may find its bucket expired, and the code then starts
  the count anew. The bound on any interval needs the same, but for windows of a single tick, which
  bear three (`IntervalBoundExactly`).
- A session left open admits exactly when its event may admit and starts when the session was
  scheduled, so it returns if the event moves back (`LeftOpenSessionAdmitsExactly`). A postponement
  that keeps the stored sales window can leave no instant of sale (`PostponedEventsGoOnSaleExactly`
  says when).

The comment above `begin`'s checks (`backend/apps/core/idempotency/service.py:92-96`) says that user,
key, endpoint and body hash are all compared before the status. The code compares the hash for a
completed record only; the model follows the code, so a retry with another body restarts a failed or
orphaned record and meets a running one with a conflict whatever its body.

`dafny verify dfyconfig.toml` checks everything.

## Model

| member | source | states |
|---|---|---|
| IdempotencyProtocol.AtMostOneLiveExactly | backend/apps/core/idempotency/service.py:61-140 | over all runs with handlers within a limit and purges that spare running handlers, no two executions of one (user, key) are ever live together iff the limit is within the orphan guard |
| IdempotencyProtocol.TakeoverRuleExactly | backend/apps/core/idempotency/service.py:121-172 | with purges at any time, and existing records taken over only some margin before their expiry, no key ever runs twice at once iff the handlers' limit is within the retention, and within margin and guard as far as such takeovers are possible |
| IdempotencyProtocol.NoLimitSuffices | backend/apps/core/idempotency/service.py:135-172 | without such a rule, for every guard, retention and limit there is a run in which a key runs twice at once |
| IdempotencyProtocol.AtMostOneLive | backend/apps/core/idempotency/service.py:61-140 | no two executions of one key are live together in any run whose handlers end within the guard and whose purges spare running ones |
| IdempotencyProtocol.TakeoverRuleProtects | backend/apps/core/idempotency/service.py:121-172 | under the takeover rule every running execution's record is its own and outlives it, so every purge spares it |
| IdempotencyProtocol.RefinementExactly | backend/apps/core/idempotency/service.py:61-172 | over all runs with handlers within a limit, what clients observe is a run of a plain map from (user, key) to its answer iff the limit is within the guard, however purges and crashes fall |
| IdempotencyProtocol.RefinesPlainMap | backend/apps/core/idempotency/service.py:61-172 | with handlers within the guard, the observed executions, replays and purges are a run of that map, and the stored answers are its state |
| IdempotencyProtocol.ReplaySoundness | backend/apps/core/idempotency/service.py:97-140 | with handlers within the guard, each replay repeats status, body and headers of an earlier execution with the same user, key, endpoint and body hash, with no purge or other execution in between |
| IdempotencyProtocol.ExecutedOnceUntilPurged | backend/apps/core/idempotency/service.py:61-166 | with handlers within the guard, between two completed executions of one key lies a purge of its record |
| IdempotencyProtocol.AnswerIsFinal | backend/apps/core/idempotency/service.py:113-119 | with handlers within the guard, once a key is answered its record stays as it is and no further execution of it starts, exactly until a purge removes that record; purges that spare it change nothing |
| IdempotencyProtocol.EndpointNeverChanges | backend/apps/core/idempotency/service.py:97-140 | in any run, timely or not, a record keeps its endpoint through orphan recovery and retries |
| IdempotencyProtocol.NoKeyIsStuck | backend/apps/core/idempotency/service.py:56-58 | once the guard has passed, the same request with the same key either starts or is replayed, whatever crashed |
| IdempotencyProtocol.SlowHandlerOverlaps | backend/apps/core/idempotency/service.py:121-130 | a handler one tick slower than the guard runs beside its retry |
| IdempotencyProtocol.SlowHandlerLeaks | backend/apps/core/idempotency/service.py:143-161 | and its answer is then stored under the retry's body hash and replayed to it, which no run of the plain map allows |
| IdempotencyProtocol.LateTakeoverOverlaps | backend/apps/core/idempotency/service.py:169-172 | a purge under a record that was retried too near its expiry lets two executions overlap though every handler is in time |
| IdempotencyAnswers.LogDecidesReplay | backend/apps/core/idempotency/service.py:113-119 | with handlers in time the log alone decides: a key executed and not purged since is replayed to the same endpoint and hash, refused to another hash, and refused to another endpoint |
| IdempotencyAnswers.ConflictMeansUnanswered | backend/apps/core/idempotency/service.py:121-133 | in any run "in progress" is answered only for an execution of that key and endpoint begun at most the guard ago that still runs or has crashed |
| IdempotencyAnswers.RefusedWhileRunning | backend/apps/core/idempotency/service.py:97-133 | with handlers in time and purges that spare them, every request with the key of a running handler is refused, as in progress or for its other endpoint, whatever its body |
| IdempotencyMiddleware.RetryIsReplayedExactly | backend/apps/core/idempotency/middleware.py:40-95 | after any other requests and purges, a request that once answered below 500 is answered from that run, with the same status, kept headers, re-encoded body and marker header, iff no purge in between ran later than its record's expiry; otherwise the handler runs again unless a later request took the key |
| IdempotencyMiddleware.VisitsKeepAnswer | backend/apps/core/idempotency/service.py:113-119 | through any requests and purges a stored answer stays as it is exactly until a purge later than its expiry |
| IdempotencyMiddleware.ServerErrorIsRetried | backend/apps/core/idempotency/middleware.py:82-93 | after a server error the key runs the handler again at once, even for another body |
| IdempotencyMiddleware.ReplayStaysInScope | backend/apps/core/idempotency/service.py:97-119 | a replay only ever comes from a completed record of the caller's own user, key, path and body hash |
| IdempotencyMiddleware.CallTellsExactly | backend/apps/core/idempotency/middleware.py:40-95 | the fate of a guarded request is exactly told by the stored row, with the status and code of each refusal, and a run leaves the row answered or failed with everything it must hold |
| IdempotencyMiddleware.Middleware.Handle | backend/apps/core/idempotency/middleware.py:40-95 | 409 exactly while the key is in progress at this path, 422 exactly for another path or an answer to another body, the stored answer with its headers and marker if there is one, and otherwise one run whose answer is stored iff its status is 200 to 499; as steps of a protocol run |
| IdempotencyMiddleware.Middleware.KeptHeaders | backend/apps/core/idempotency/middleware.py:82-91 | Content-Type, Location and Retry-After, as far as present, are stored |
| IdempotencyMiddleware.Middleware.CopiedHeaders | backend/apps/core/idempotency/middleware.py:65-71 | the replay carries every stored header, over the default content type |
| IdempotencyDesk.IdempotencyService.BeginRequest | backend/apps/core/idempotency/service.py:62-140 | each answer has its one reason in the stored row: another endpoint; answered here for another hash, or for this one; in progress here within the guard; else a fresh start, which takes the row as said; with handlers in time a replay repeats an execution in the log and a fresh start meets no other live execution of its key |
| IdempotencyDesk.IdempotencyService.CompleteRequest | backend/apps/core/idempotency/service.py:143-161 | the row handed to the caller is written whatever its status, and nothing once it is gone; with handlers in time the key had no answer yet |
| IdempotencyDesk.IdempotencyService.FailRequest | backend/apps/core/idempotency/service.py:164-166 | only the status of that row changes; with handlers in time no answer is lost |
| IdempotencyDesk.IdempotencyService.PurgeExpired | backend/apps/core/idempotency/service.py:169-172 | exactly the rows past their expiry are deleted and counted, the others stay as they are, and exactly the answers of the deleted are forgotten |
| EventRuns.CapacityNeverOversubscribed | backend/apps/catalog/views.py:959-991 | in every run an event with categories has a capacity, quotas add up to at most it, and so do the tickets sold |
| EventRuns.HandleKeepsCapacity | backend/apps/catalog/views.py:1728-1748 | every accepted request keeps the quota sum within the capacity and each category's sales within its quota |
| EventRuns.PublicationFreezes | backend/apps/catalog/views.py:1113-1165 | from publication on the event stays, capacity, categories and quotas never change, announced schedules are only appended, and the status only moves along the lifecycle |
| EventRuns.PostponementHistory | backend/apps/catalog/views.py:1237-1300 | the current schedule is the last announced one, and the four postponement fields are all null, or name it as replaced, or name it and the one before |
| EventRuns.GatesAgree | backend/apps/catalog/services/completion.py:16-23 | although sales, admission and completion test different fields, in every reachable state all three gates agree on a usable schedule |
| EventRuns.OutboxAgrees | backend/apps/catalog/views.py:1474-1510 | exactly one published record iff the event left draft, one completed record iff completed, one cancelled record iff cancelled |
| EventRuns.NeverRefundedAndReported | backend/apps/payments/refund_consumers.py:14-25 | once a completion is recorded no cancellation ever is, and no second completion |
| EventRecords.RefundsAskedExactly | backend/apps/payments/refund_consumers.py:14-25 | over every run the outbox holds a cancelled record of an event asking for refunds, or declining them, iff an accepted cancellation of that event did |
| EventRecords.CancelledOnce | backend/apps/catalog/views.py:1474-1510 | and no event has two accepted cancellations, so it is never asked both ways |
| EventRecords.EveryRecordTellsItsRequest | backend/apps/catalog/views.py:1139-1150 | every record was sent by an accepted request of its kind for that event, from a status that allows it, with the schedules before and after or the answer about refunds |
| EventRuns.HandleMovesAndSends | backend/apps/catalog/views.py:1379-1413 | an accepted request moves the status along the lifecycle and sends exactly the record that move owes |
| EventRuns.VersionTellsAllButCompletion | backend/apps/catalog/services/completion.py:42-48 | between any two states of a run an event keeps its version iff its row is the same or the sweep's completion of it |
| EventRuns.PostponedRecordsTellSchedule | backend/apps/catalog/views.py:1284-1318 | an event's postponed records form an unbroken chain of schedules whose last is the current one |
| EventNames.RunKeepsNames | backend/apps/catalog/models.py:180-186 | over every run the organizer's event names, and the category names of each event, differ up to case |
| EventRules.NamesClashExactly | backend/apps/catalog/models.py:180-186 | two names clash iff they differ in nothing but the case of letters |
| EventRules.WriteErrorTells | backend/apps/catalog/serializers.py:211-269 | merged dates are accepted iff start, end and sales window are in order and a given start is not too early; each error has its reason |
| EventRules.FieldErrorsTell | backend/apps/catalog/serializers.py:163-209 | each missing or wrong field is reported and no other |
| EventRules.PublishErrorsTell | backend/apps/catalog/views.py:1114-1142 | each missing requirement for publication is reported and no other |
| EventRuns.PublishedEventsGoOnSale | backend/apps/catalog/serializers.py:211-269 | whatever draft writes and partial patches were accepted, a published event has an instant of sale |
| EventRuns.PostponedEventsGoOnSaleExactly | backend/apps/catalog/serializers.py:348-368 | a postponed event with a date has an instant of sale iff its stored sales start precedes that date |
| EventDesk.CatalogService.CreateDraft | backend/apps/catalog/views.py:801-839 | a draft with exactly the given fields, or their defaults, is inserted at version 1 iff its required fields are there, its dates and sales window in order and its name free; each refusal has its error |
| EventDesk.CatalogService.DeleteDraft | backend/apps/catalog/views.py:1022-1060 | deleted iff a draft, at the version presented, with no ticket sold; each refusal has its error |
| EventDesk.CatalogService.Patch | backend/apps/catalog/views.py:920-991 | each given field is written and no other, at the next version, iff every check passes, with the error of the first that fails; afterwards quotas fit the capacity and the sales window the schedule |
| EventDesk.CatalogService.SetEventImage | backend/apps/catalog/views.py:477-500 | an accepted upload needs a draft, published or postponed event at the version presented and changes, of what is stored here, the version alone |
| EventDesk.CatalogService.AddCategory | backend/apps/catalog/views.py:1713-1748 | appended with the given name, price and quota, unsold at version 1, iff the draft's capacity still holds all quotas and its name is free; each refusal has its error |
| EventDesk.CatalogService.EditCategory | backend/apps/catalog/views.py:1855-1917 | name, price and quota change as given iff the quota covers the sales and fits beside the others, at the version presented and under a free name; each refusal has its error |
| EventDesk.CatalogService.RemoveCategory | backend/apps/catalog/views.py:1948-1985 | removed iff without sales at the version presented, and no sold ticket with it; each refusal has its error |
| EventDesk.CatalogService.PublishDraft | backend/apps/catalog/views.py:1094-1165 | every missing requirement is reported; a published event announces its schedule, sends exactly its one published record, and has quotas within capacity and an instant of sale |
| EventDesk.CatalogService.PostponeEvent | backend/apps/catalog/views.py:1202-1318 | accepted iff the dates, the status, the reason and the version are in order; then the row, the announced schedules and the one record sent tell the old and the new schedule, and admission is possible iff a date was given |
| EventDesk.CatalogService.SuspendEvent | backend/apps/catalog/views.py:1353-1413 | status and reason are written and one suspended record sent; the event neither sells, admits nor completes at any time |
| EventDesk.CatalogService.CancelEvent | backend/apps/catalog/views.py:1448-1510 | the record appended carries the caller's answer about refunds; each refusal has its error; a cancelled event has exactly one cancelled record and no completed one |
| EventDesk.CatalogService.ArchiveEvent | backend/apps/catalog/views.py:1543-1571 | archiving a published event sends nothing and leaves its one published record |
| EventDesk.CatalogService.UnarchiveEvent | backend/apps/catalog/views.py:1608-1642 | back to published, with an instant of sale and no second published record |
| EventDesk.CatalogService.QuotaSum | backend/apps/catalog/views.py:139-155 | the sum of the categories' quotas, zero for none |
| EventDesk.CatalogService.CompleteEventIfElapsed | backend/apps/catalog/services/completion.py:26-62 | completes iff the event has ended and is published or postponed with a date; only status and reason change, so the version stays, and there is one completed record and no cancelled one |
| EventDesk.CatalogService.ElapsedIds | backend/apps/catalog/services/completion.py:65-80 | every elapsed published or postponed event once, by end and then key |
| EventDesk.CatalogService.CompleteElapsedEvents | backend/apps/catalog/services/completion.py:65-89 | afterwards nothing is completable, only completable events changed, and the count is the number of completion records appended |
| EventSweep.SweepEffect | backend/apps/catalog/services/completion.py:65-89 | completing a list of distinct events one by one equals completing all of them at once |
| EventSweep.SweepLeavesNothing | backend/apps/catalog/services/completion.py:65-89 | over exactly the elapsed events this completes every completable one, once, and nothing else |
| SalesTimeline.PhasesNeverGoBack | backend/apps/catalog/lifecycle.py:82-116 | for a fixed schedule the phase never moves back in coming soon, open, closed, live, ended |
| SalesTimeline.SaleIsAnInterval | backend/apps/catalog/lifecycle.py:119-130 | the instants of sale are one interval that ends by the start |
| SalesTimeline.SaleHappensExactly | backend/apps/catalog/lifecycle.py:82-116 | that interval is non-empty iff the sales start, when set, precedes its end |
| SalesTimeline.PhasesCoincideWhenPublished | backend/apps/catalog/lifecycle.py:42-79 | operational, sales and catalogue status agree on a published event, up to sold out |
| SalesTimeline.ScheduleDecides | backend/apps/catalog/lifecycle.py:82-116 | on its schedule an event has each phase at exactly the instants its bounds give |
| SalesTimeline.StatusDecides | backend/apps/catalog/lifecycle.py:33-79 | draft, suspended, cancelled, completed and archived events have their one phase at every instant, in all readings; drafts are catalogued as coming soon, postponed ones keep their operational status |
| AdmissionIntegrity.UsedIffAdmittedOnce | backend/apps/access/services/admissions.py:32-76 | in every reachable state a ticket is used iff it has exactly one admission, and it never has more |
| AdmissionIntegrity.EveryAdmissionWasLegitimate | backend/apps/access/services/admissions.py:32-76 | each admission in the history was made by a scan of the then-current QR version, by a scanner then active and assigned, while an open session matched the then-current start |
| AdmissionIntegrity.UniqueConstraintNeverFires | backend/apps/access/services/admissions.py:57-66 | the status check always refuses a second scan before the unique constraint would |
| AccessAnswers.ScanToldExactly | backend/apps/access/services/admissions.py:32-76 | in every reachable state: invalid for a token that names no current ticket, closed, not assigned, else already admitted iff the ticket has one admission, invalid iff void, accepted iff valid; nothing else ever |
| AccessAnswers.VoidMeansRefunded | backend/apps/ticketing/api.py:202-214 | a ticket is void iff, somewhere in the run, a refund of its order and event met it while it was valid |
| AccessAnswers.RunKeepsTicketEvents | backend/apps/access/services/admission_sessions.py:32-36 | a scanned ticket's event is always found, published or beyond |
| AdmissionIntegrity.EntriesWithinTickets | backend/apps/access/services/live_dashboard.py:31-38 | entries never exceed the tickets that are not void |
| AdmissionIntegrity.RunKeepsTickets | backend/apps/ticketing/api.py:143-150 | used tickets, admissions and per-event counts stay in step over every run of scans, transfers, issues and refunds |
| SessionRules.RunKeepsSessions | backend/apps/access/services/admission_sessions.py:51-136 | at most one session per event is open; a closed one was closed after it opened and names its closer or is marked automatic |
| SessionRules.OpeningAndClosing | backend/apps/access/services/admission_sessions.py:51-95 | opening succeeds iff the schedule gate allows it and then admission is open at the current start, also over a stale session; closing stops admission |
| SessionRules.LeftOpenSessionAdmitsExactly | backend/apps/access/services/admission_sessions.py:39-48 | a session that nobody closes or replaces stays open through everything else and admits iff its event may admit and starts when the session was scheduled |
| SessionRules.StaleSessionReturns | backend/apps/access/services/admission_sessions.py:39-48 | for example, a session left open stops admitting when the event moves and admits again, unopened, when it moves back |
| AssignmentLog.AssignmentLogReplays | backend/apps/catalog/views.py:2229-2276 | folding the assigned and unassigned records yields exactly the active assignments, of which there is at most one per event and scanner |
| AssignmentLog.AssignedRecordsAlternate | backend/apps/catalog/views.py:2321-2369 | between two assigned records of one scanner and event lies an unassigned one |
| ReportProofs.ReportsConserve | backend/apps/access/services/final_reports.py:38-79 | every stored report satisfies sold = used + voided + absent and net = commission + organizer net, its scanner counts add up to used, and its event is completed |
| ReportProofs.FinalReportConserves | backend/apps/access/services/final_reports.py:38-127 | neither clamp on absent tickets or organizer net ever bites |
| ReportProofs.ReportIsDelayIndependent | backend/apps/access/services/final_reports.py:28-56 | however late the consumer runs, used count and scanner rows are those at completion |
| ReportProofs.ReportedOnce | backend/apps/access/services/final_reports.py:36-40 | a stored report is never replaced |
| AccessAnswers.ReportTellsFirstBuild | backend/apps/access/services/final_reports.py:28-143 | over every run a stored report carries the amounts, tickets and scans of the first build after its event's completion, and of no later one |
| AccessAnswers.FinalReportTells | backend/apps/access/services/final_reports.py:43-127 | gross, refunds and rate as given, net never negative, commission its half-up share, counts the cardinalities of the event's tickets, a row for each scanner that scanned with its number of scans |
| ReportProofs.ReportedIsNeverRefunded | backend/apps/payments/refund_consumers.py:14-25 | an event with a report never has a cancellation record, at any later time |
| ReportProofs.GroupingCounts | backend/apps/access/services/final_reports.py:81-91 | a scanner has a row iff it scanned, with its number of scans and its latest |
| ReportProofs.GroupingSums | backend/apps/access/services/final_reports.py:81-91 | rows come in scanner order and their counts add up to the scans |
| ReportProofs.GroupingLists | backend/apps/access/services/final_reports.py:81-91 | a row stands only for a scanner that scanned |
| ReportProofs.ReportRows | backend/apps/access/services/final_reports.py:92-127 | no row is dropped for want of its scanner |
| AccessDesk.AccessService.OpenEventAdmission | backend/apps/access/services/admission_sessions.py:51-78 | an open session of the current start is kept; otherwise a new one in the opener's name closes the stale one; the session returned is the only open one of its event, and admission is open |
| AccessDesk.AccessService.CloseEventAdmission | backend/apps/access/services/admission_sessions.py:81-95 | closes exactly the event's open session, under the user and at this instant, and returns it; admission is closed |
| AccessDesk.AccessService.CloseEventAdmissionAutomatically | backend/apps/access/services/admission_sessions.py:105-136 | closes exactly the event's open session with no user and the automatic mark; admission is closed |
| AccessDesk.AccessService.RequireEventAdmissionOpen | backend/apps/access/services/admission_sessions.py:98-102 | passes iff the event may admit and an open session matches its current start |
| AccessDesk.AccessService.AdmitTicketFromQr | backend/apps/access/services/admissions.py:32-76 | accepted iff the token names a valid ticket at its current version, the event admits and the user's active scanner is assigned; past gate and scanner, already admitted iff the ticket has one admission so far, invalid iff void; one admission, legitimate and its ticket's only one, or no change |
| AccessDesk.AccessService.VoidValidTicketsForOrderEvent | backend/apps/ticketing/api.py:202-214 | exactly the order's valid tickets of the event become void and are counted; every other ticket stays |
| AccessDesk.AccessService.Assign | backend/apps/catalog/views.py:2214-2276 | refused for an unknown, unassignable or unavailable case with its error; get-or-create of the active assignment, recorded iff created; afterwards table and folded records both have it |
| AccessDesk.AccessService.Unassign | backend/apps/catalog/views.py:2315-2369 | exactly the active assignment is closed and recorded, or refused; afterwards neither table nor folded records have it |
| AccessDesk.AccessService.ScannerStats | backend/apps/access/services/final_reports.py:98-127 | exactly the grouped rows whose scanner is found, in order |
| AccessDesk.AccessService.BuildEventFinalReport | backend/apps/access/services/final_reports.py:28-143 | the existing report, a refusal before completion, or one new report with the gross, refunds and rate given, their net and its half-up commission, and the numbers of sold, used, void and absent tickets; no stored report changes |
| Commission.RoundsHalfUp | backend/apps/access/services/final_reports.py:19-25 | the commission is the one whole amount within half a cent of the exact product, the upper on a tie |
| Commission.WithinAmount | backend/apps/access/services/final_reports.py:65-79 | a rate of at most 1 never takes more than the amount |
| Commission.Monotone | backend/apps/access/services/final_reports.py:19-25 | monotone in amount and in rate |
| Commission.TotalWithinHalfCents | backend/apps/access/admin_dashboard_views.py:34-53 | the dashboard's total over n reports is within n half cents of the exact total |
| ChallengeRuns.ChallengeIsBounded | backend/apps/organizing/scanner_security.py:259-325 | over every run a challenge compares at most five wrong codes, succeeds at most once, never both, and either end consumes it |
| ChallengeRuns.AtMostOneOpen | backend/apps/organizing/scanner_security.py:139-169 | per organizer, scanner, requester and action only the newest challenge may be open |
| ChallengeRuns.ClosedIsFinal | backend/apps/organizing/scanner_security.py:277-278 | a consumed challenge is never written again and no later code is compared with it |
| ChallengeRuns.TriesFallInsideLifetime | backend/apps/organizing/scanner_security.py:155-169 | every comparison happens within the five minutes of its challenge |
| ChallengeRuns.GuardIsAtomic | backend/apps/organizing/scanner_security.py:203-247 | through the two nested atomic blocks and their exceptions, the operation's effect is committed iff its own challenge is consumed in the same step, which needs the current version and the mailed code; otherwise no business row changes |
| ChallengeRuns.FailureRestoresEverything | backend/apps/organizing/scanner_security.py:197-200 | an operation that raises after writing leaves the whole state as it was: the same code still serves, exactly until it expires |
| ChallengeRuns.WrongCodeCommitsOneAttempt | backend/apps/organizing/scanner_security.py:280-325 | the error of a wrong code, raised after the inner block and caught in the outer one, leaves one attempt committed and nothing else; the fifth also closes the challenge, and only that fifth is answered with too many attempts |
| ChallengeRuns.GuessesArePaidFor | backend/apps/organizing/scanner_security.py:287-315 | all wrong codes of a run together are at most five per challenge issued |
| ChallengeAnswers.RequestToldExactly | backend/apps/organizing/scanner_security.py:82-182 | a code is issued iff the scanner is the organizer's, not archived, and in a status that allows the action; each other status has its refusal; the challenge has five attempts and five minutes and replaces the open ones of its subject |
| ChallengeAnswers.ChallengesWereAllowed | backend/apps/organizing/scanner_security.py:95-169 | over every run each challenge was issued to a managed scanner while its status allowed the action, for five minutes from then |
| ChallengeAnswers.ConfirmToldExactly | backend/apps/organizing/scanner_security.py:203-325 | in every reachable state each answer to a confirmation has its one reason, in the order scanner, version, challenge, code, operation |
| ScannerCodes.CodeIsSixDigits | backend/apps/organizing/scanner_security.py:59-71 | a derived code is six digits that read back as the digest modulo a million |
| ScannerCodes.MailedCodeIsRecognised | backend/apps/organizing/scanner_security.py:287-294 | the mailed code matches its stored hash inside any whitespace |
| ScannerSecurity.ScannerSecurityService.RequestCode | backend/apps/organizing/scanner_security.py:82-182 | issued for Revoke in INVITED, EMAIL_SENT, LINK_OPENED or ACTIVE, LeaveAccept in LEAVE_REQUESTED, LeaveRequest in ACTIVE, each other status with its own refusal; the challenge created is the only open one of its subject |
| ScannerSecurity.ScannerSecurityService.ConsumeCode | backend/apps/organizing/scanner_security.py:250-325 | in its own savepoint, an unusable challenge raises inside the block and is rolled back, every other error is raised after the block is released |
| ScannerSecurity.ScannerSecurityService.ConsumeCodeAndRun | backend/apps/organizing/scanner_security.py:185-247 | with savepoints for both blocks and the operation writing in place, what is committed in the end is the specified outcome |
| ScannerSecurity.ScannerSecurityService.Confirm | backend/apps/organizing/scanner_security.py:185-247 | one confirmation after any history: the reason of each answer, effect iff consumption, a raising operation changes nothing, at most five wrong codes and one success per challenge, and every wrong code counted |
| CrossTabLock.MutualExclusionExactly | web/src/lib/httpClient.ts:126-192 | over all runs of any number of tabs at most one is inside the refresh task iff three timer overshoots stay below lease minus request timeout |
| CrossTabLock.LeaseCoverageExactly | web/src/lib/httpClient.ts:126-192 | whoever is inside the task holds an unexpired lease, over all runs, iff three overshoots stay below lease minus timeout minus settling delay |
| CrossTabLock.LockIsHonoured | web/src/lib/httpClient.ts:155-192 | an unexpired lock survives everything but its own holder's release |
| CrossTabLock.CrashedLockExpires | web/src/lib/httpClient.ts:155-173 | whatever the other tabs did meanwhile, a lock still unchanged one lease later is claimed by the next tab that looks |
| RefreshLockStorage.PrefixIdentifiesOwner | web/src/lib/httpClient.ts:175-186 | the prefix test recognises exactly the own lock, even if one id begins another |
| RefreshLockStorage.DecodeEncode | web/src/lib/httpClient.ts:158-171 | the stored text gives back owner and expiry |
| RefreshLockStorage.Attempt.Poll | web/src/lib/httpClient.ts:155-173 | one pass up to the next await: 40 ms of waiting on an unexpired lock, else a claim for 15 s |
| RefreshLockStorage.Attempt.Confirm | web/src/lib/httpClient.ts:173-180 | acquired iff the key is still the own one |
| RefreshLockStorage.Attempt.Release | web/src/lib/httpClient.ts:183-191 | removes the own lock and no other |
| HttpReplay.BoundedReplay | web/src/lib/httpClient.ts:213-263 | every request is sent at most twice, at most one refresh is in flight, and refreshes never outnumber the requests that may ask for one |
| HttpReplay.SingleFlight | web/src/lib/httpClient.ts:213-221 | all requests waiting for an unsettled refresh wait for the same one |
| HttpReplay.WhatStartsARefresh | web/src/lib/httpClient.ts:223-263 | a refresh starts only on the first 401 of a request that may ask for one, while none runs; no answer to the refresh's own request starts another |
| HttpReplay.RefreshNeverWaits | web/src/lib/httpClient.ts:227-236 | however the refresh's own request is answered, it passes the interceptor without joining or starting a refresh, so a running refresh always has a next step |
| HttpReplay.SkipIsNeeded | web/src/lib/httpClient.ts:227-236 | without the skip mark the refresh's own 401 would make it wait for its own promise |
| HttpReplay.ReplayCarriesFreshToken | web/src/lib/httpClient.ts:245-252 | a replay carries a token granted no earlier than the refresh its request waited for |
| HttpReplay.SessionTellsRun | web/src/lib/httpClient.ts:194-263 | over every run the session is reported lost exactly at an invalid-session answer to a request that does not merely skip the refresh, a 401 to the refresh or to a replay, or a refresh without a token; the token held is the last one granted since |
| HttpReplay.FirstSendCarriesToken | web/src/lib/httpClient.ts:111-124 | a first send carries that token, unless the request skips the refresh or is the refresh |
| HttpReplay.HttpClient.PerformTokenRefresh | web/src/lib/httpClient.ts:194-200 | the refresh sends one request of its own, with the skip mark and without a token |
| HttpReplay.HttpClient.OnResponse | web/src/lib/httpClient.ts:223-263 | the interceptor up to its await, for callers' and the refresh's requests alike: resolved, waiting for the one refresh on a first 401, or rejected with its own error, and the session lost in exactly the listed cases; all bounds of the replay hold |
| HttpReplay.HttpClient.OnRefreshSettled | web/src/lib/httpClient.ts:194-221 | the refresh's outcome reaches token, invalidation and waiting requests; none is left running and none is started |
| HttpReplay.HttpClient.RefreshAccessTokenOnce | web/src/lib/httpClient.ts:213-221 | joins the running refresh or starts one |
| HttpReplay.HttpClient.OnResumed | web/src/lib/httpClient.ts:245-262 | a second and last send with a token no older than the awaited refresh, or a rejection with the transient or the own error |
| EntityTags.ParseFormat | backend/apps/core/concurrency.py:15-34 | a version of at least 1 comes back from its ETag or bare numeral inside any whitespace |
| EntityTags.SignedNumerals | backend/apps/core/concurrency.py:26-32 | a plus sign is read as the same version, a minus sign never as one |
| EntityTags.OnlyNumeralsMatch | backend/apps/core/concurrency.py:15-34 | any printable ASCII character but digits, quotes, signs and underscores makes the header unusable, so weak validators never match |
| EntityTags.MissingExactly | backend/apps/core/concurrency.py:15-18 | the header counts as missing iff it is absent or blank |
| EntityTags.GroupedNumerals | backend/apps/core/concurrency.py:26-29 | single underscores may group digits, doubled ones make the header unusable |
| OptimisticLock.VersionCountsWrites | backend/apps/core/concurrency.py:37-62 | over every interleaving a version is one more than the row's successful versioned writes and ordinary saves |
| OptimisticLock.NoLostUpdate | backend/apps/core/concurrency.py:37-62 | no version of a row is replaced twice, so of all writes presenting one version at most one succeeds |
| OptimisticLock.EchoedEtagDetectsWrites | backend/apps/core/concurrency.py:65-67 | an echoed ETag passes iff neither a versioned write nor an ordinary save intervened |
| OptimisticLock.UnlistedSaveIsInvisible | backend/apps/core/models.py:57-66 | the example behind the completion exception: a save whose listed fields omit the version leaves exactly the same headers matching |
| OptimisticLock.VersionedModel.Update | backend/apps/core/concurrency.py:37-62 | compare-and-set of one row: the given fields over the others at the next version, which counts all its writes and saves, or a stale answer with the current version |
| OptimisticLock.VersionedModel.SaveStored | backend/apps/core/models.py:57-66 | the version of a stored row grows unless the save lists its fields without it |
| ThrottleLateness.WindowLimitExactly | backend/apps/identity/throttling.py:25-49 | over all runs with cache calls at most so many ticks after their clock readings, in any interleaving, every window admits exactly min(k, N) of its k requests iff that is at most one tick (or N is zero) |
| ThrottleLateness.IntervalBoundExactly | backend/apps/identity/throttling.py:25-49 | and any interval as long as the window admits at most 2N iff it is at most one tick, or three if a window is a single tick (or N is zero) |
| ThrottleLateness.LateCallOverfillsWindow | backend/apps/identity/throttling.py:39-46 | two ticks late, for every rate, a run in which a window admits N + 1 |
| ThrottleLateness.LateCallOverfillsInterval | backend/apps/identity/throttling.py:39-46 | and one in which an interval admits 2N + 1 |
| Throttle.WindowAdmitsLimit | backend/apps/identity/throttling.py:25-49 | in every run whose cache calls come before their buckets expire, exactly min(k, N) of the k requests decided in one window pass |
| Throttle.SlidingIntervalBound | backend/apps/identity/throttling.py:25-49 | in every such run any interval as long as the window admits at most 2N |
| Throttle.TimeoutOutlivesWindow | backend/apps/identity/throttling.py:34-37 | a bucket's timeout, whenever set, outlives the window it counts for |
| Throttle.InsideWindowIsPunctual | backend/apps/identity/throttling.py:39-46 | cache calls made inside the window, however long after the reading, always meet a live bucket |
| Throttle.WaitReachesNextWindow | backend/apps/identity/throttling.py:48-52 | the wait told to a refused caller ends at the first instant of the next window |
| ThrottleDesk.FixedWindowThrottle.AllowRequest | backend/apps/identity/throttling.py:25-49 | add, else increment, else set anew: one more decision, and while no call came too late for its bucket every window so far has admitted exactly min(k, N) |

## Left out

- Idempotency: JSON coding and the body fingerprint are uninterpreted functions; the clock of `locked_at` and `expires_at` is read once per request; a record deleted between the failed insert and the select, which raises in the source, is not an outcome.
- IdempotencyProtocol.AtMostOneLive: needs purges that spare running handlers, which the service does not ensure; TakeoverRuleExactly and NoLimitSuffices say what would and what does not.
- IdempotencyAnswers.RefusedWhileRunning: needs the same of purges.
- IdempotencyMiddleware.Middleware.Handle: begins, runs and finishes as one call; the interleaving of other requests is in IdempotencyProtocol, whose begin, finish and crash are separate steps.
- Cross-tab lock: a tab's read and write of the key between two awaits is one step; browsers without storage or with a throwing one, wall-clock jumps and malformed texts that no tab writes are not modelled.
- HttpReplay: tokens set by a login or dropped by a logout between steps are not steps of the model; nor is a failing lock; correlation headers and error mapping are left out.
- EventDesk.CatalogService.SetEventImage: the file checks and the upload before its transaction are left out, as is the removal of an image.
- Events: images' bytes, descriptions and timestamps; letter case is folded for ASCII only; events of deleted organizers; the local-date minimum start is a bound `earliest` given with the request; integers have no width.
- EventHandlers.Handle: one organizer's permissions and ownership are decided before the step; ticket sales are the environment's step and respect the quota.
- Completion: the sweep is modelled run alone; concurrent requests are the runs of EventRuns.
- Access: a QR token is its ticket and version or fails to decode; whether a scanner account is active or assignable comes from the environment; ticket issuance, transfer and refund voiding are environment steps; gross revenue, refunds and rate are inputs of the report.
- AdmissionIntegrity.EveryAdmissionWasLegitimate: a scan is one atomic step, while the source reads the scanner account and its assignment without locking them.
- AccessDesk.AccessService.ScannerStats: the rows carry scanner, count and latest scan; names and e-mail addresses, which accounts may change at any time, are left out.
- The buyers' notification list.
- Codes: the keyed digest and the hash are uninterpreted, so "the mailed code" means any text with its hash; challenge identifiers are positions, hence never collide; outgoing mail is left out.
- ScannerSecurity.ScannerSecurityService.ConsumeCodeAndRun: the protected operation is any function of the rows that ends or raises after writing; the revocation and leave services behind it are not modelled.
- Whitespace, letters and digits are the ASCII kind; other Unicode digits that Python's `int` accepts, and its limit on very long numerals, are not modelled.
- Throttle: time is counted in ticks of any size, so floating-point rounding is not modelled; eviction of live buckets by the cache is excluded.
- ThrottleDesk.FixedWindowThrottle.AllowRequest: other requests between its own cache calls are covered by the runs of Throttle, not by the method.
- The outbox relay, order, payment, token and onboarding services, DRF plumbing, rendering, mail and user interface.
