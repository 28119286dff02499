# Procession permission portal: verified model

The portal takes an application for a procession from a draft through the
decisions of several police stations to a permit, follows the procession live,
and reports on all of it. This project models the services that change its
tables and proves what every run of them keeps.

## How it is laid out

| file | what it holds |
|---|---|
| `Casework` | one application and all rows that hang off it; the effect of every call on them; runs |
| `Calls` | when each of those calls goes through and what it leaves, told from the rows alone |
| `ApplicationRecord` | the same calls as methods that change fields statement by statement, proved against `Casework` |
| `Lifecycle`, `Decisions` | what whole runs keep of status, approvals, permit and history; no stale approval |
| `Rulings`, `PermitOrder` | what station decisions come to between submissions, and exactly when their order matters: for rows and status, for the permit |
| `ApprovedContent` | exactly when what is approved is what was submitted: the particulars, the route on the permit |
| `LiveTracking` | GPS health and the position cache |
| `AlertLogs`, `RouteWatch` | exactly when the alerts raised are those the changes of health and route call for; the route deviations are measured against |
| `Filing` | the way from a new application to its first submission, used to show states reached |
| `Boundaries` | runs of new applications to the edge of those results |
| `Numerals`, `ApplicationNumbers`, `NumberLedger`, `NumberDesk` | the text of application numbers, the numbering protocol over every interleaving, its statements as methods |
| `Registry`, `Interleavings` | all applications together; each one's life is a run of `Casework`, their numbers a run of `NumberLedger` |
| `GapRuns` | a run of all of it that leaves a gap in a festival's numbers |
| `GpsWatchdog` | the two sweeping updates over the table of processions, and the loops of alerts behind them |
| `Routes`, `RouteBuilder`, `RouteAnalysis` | route versions, the form that edits them, responsible stations |
| `Conflicts` | the table with one row per conflicting pair |
| `Csv` | the CSV writer and a reader written from section 2 of RFC 4180 |
| `Sql`, `Queries`, `Areas`, `Reports` | the clauses services assemble at run time, what they select or set, report counts |
| `Migrations` | the migration runner |
| `Ordering` | sorting by a strict order, for file names and route points |

## Assumptions

- Calls on one application do not overlap; while its first submission is in
  flight no other call touches it. Calls on different applications interleave
  freely, and the submission transaction is split into its statements.
- Postgres runs at READ COMMITTED: the COUNT after the advisory lock sees the
  committed rows. The hash that turns lock names into lock ids is any function.
- The database clock never runs backwards. A sweep is two separate updates, and
  each alert for a changed row a later statement of its own, owed until it is
  raised or lost; anything may run between them, another sweep included.
- Requests have passed their validators: a decision is never PENDING, festival
  codes match `[A-Z0-9_]+`, ids are UUIDs.
- The request validator accepts at most 20 waypoints; what is proved of route
  requests holds for any number of them.
- Every saved route version gets an id of its own (`FreshVersions`, where a
  statement needs it).
- Distances, lengths and overlaps are inputs or arbitrary functions - the
  distance of a ping one of route and position - and coordinates opaque reals. The year of an application is an input.
- A run is any sequence of the operations in `Casework.Op`, refused calls
  included: those change nothing but the clock.

## Where code and promise differ

- **A permit the moment everybody has approved** (`approvals.service.ts:103-106`).
  `permits.permission_number` and `applications.application_no` are both
  VARCHAR(50), and the former is `PMT-` in front of the latter. An application
  whose number has 47 to 50 characters can be submitted but never approved:
  `Lifecycle.IssuingFailsExactly`, `Boundaries.FirstApprovalExactly` and
  `Boundaries.LongNumbersNeverApproved`.
- **No stale approvals** (`applications.service.ts:173-176`). Decisions taken
  before a resubmission never count (`Decisions.NoStaleApprovals`). The
  particulars stay as submitted if and only if no edit with a new value goes
  through (`ApprovedContent.ParticularsExactly`), which takes a request for
  changes (`EditFollowsRequest`) but no resubmission: `EditSlipsThrough` is a run
  in which the station that asked approves the edited application. The permit
  names the route of a submission if and only if no version was saved between
  the submission and the issuing decision (`ApprovedContent.PermitRouteExactly`);
  in `PermitForUnseenRoute` one was.
- **The history is a path.** `decide` does not look at the current status and
  `complete` always writes LIVE to COMPLETED. `Lifecycle.ConnectedExactly` says
  when the history is connected; `Boundaries.LateDecisionBreaksHistory` is a run
  where it is not.
- **Gap-free numbers.** `_` is legal in a festival code and a wildcard to LIKE.
  It opens gaps, never duplicates: `NumberLedger.GapFreeExactly`, and for the
  whole system `GapRuns.GapFreeSystemExactly`.
- **One alert per change of GPS health.** At every moment of a run each change
  was alerted once and in order, or its alert is still owed, if and only if no
  start goes through on a weak or lost signal and no alert is lost or overtaken
  (`AlertLogs.AlertsFitExactly`). Every new application has a run for each way
  out of step: a station repeats its approval of a LIVE application and the
  organizer starts again (`Boundaries.AlertedTwice`); an alert that throws, or
  one behind it in the loop, is never raised, for its row has already moved
  (`AlertLost`); a ping comes between the update and its alert, and the completed
  log ends with GPS_LOST (`AlertAfterRecovery`); two sweeps overlap
  (`AlertOvertaken`); a ping dies between its row update and its recovery alert
  (`RecoveryLost`).
- **Deviation alerts are the edges of the pings**, if and only if no ping dies
  before it has shown or alerted a change it found
  (`AlertLogs.DeviationLogExactly`; `Boundaries.EdgeLost` is a run in which one
  does, and in `EdgeLostAfterRecovery` one dies between its two alerts, so that
  only the log of GPS alerts is right). They are measured against the active
  route, which is the permit's until a newer version is saved
  (`RouteWatch.AlertsAgainstPermitRoute`).
- **Nothing to see after completion.** Whether a position is still shown is
  decided by the last completion: it is, if and only if that call died between
  its commit and `redis.del` with a key cached, and nothing has evicted the key
  since (`LiveTracking.NothingAfterCompletion`); in
  `Boundaries.ShownAfterCompletion` it did.
- **The order of decisions does not matter** for rows and status, if and only if
  the permit exists or its number fits, or there is no more than one station
  (`Rulings.DecisionOrderExactly`; the same guard decides whether every stretch
  ends with each station's last decision, `Rulings.DecisionsFoldExactly`, and
  every run without a submission, `Rulings.RunsFoldExactly`). With
  a number of 47 to 50 characters the decision that would complete the approval
  is rolled back, and two orders of the same decisions can end in REJECTED and
  in CHANGES_REQUESTED: `Rulings.OrderMattersReached` is a run. Whether there is
  a permit depends on the order more often; `PermitOrder.PermitOrderExactly` says
  when all orders agree and `PermitOrder.PermitDependsOnOrder` is a run in which
  they do not.
- **Resuming migrations** leaves the database of a clean run if and only if what
  was applied is a prefix of the sorted files: `Migrations.ResumedExactly`. Any
  file added in front of one already applied breaks it: `Migrations.LateFile`.

## Model

| member | source | states |
|---|---|---|
| ApplicationNumbers.ParseFormat | backend/src/modules/applications/applications.service.ts:162-163 | a number parses back to code, year and sequence, for every legal code and any sequence, also past 99999 |
| ApplicationNumbers.FormatInjective | backend/src/modules/applications/applications.service.ts:162-163 | different code, year or sequence never give the same number |
| ApplicationNumbers.FormatShape | backend/src/modules/applications/applications.service.ts:162-163 | CODE-YEAR- and the sequence in at least five digits, exactly five below 100000 |
| ApplicationNumbers.LikePrefix | backend/src/modules/applications/applications.service.ts:156-160 | LIKE 'p%' holds exactly of texts that begin with p, with `_` in p standing for any character |
| ApplicationNumbers.LikeMeans | backend/src/modules/applications/applications.service.ts:156-160 | the counting pattern matches a number exactly when the years are equal and its code fits the counted code read with `_` as wildcard |
| ApplicationNumbers.LikeExact | backend/src/modules/festivals/dto/create-festival.dto.ts:4 | the pattern never misses a number of its own code and year; without `_` it matches no other |
| Numerals.PaddedRoundTrip | backend/src/modules/applications/applications.service.ts:163 | padStart keeps the number written, whatever its width |
| NumberLedger.CountIsMatching | backend/src/modules/applications/applications.service.ts:156-160 | the COUNT over the rows is the number of issued numbers the pattern matches: none is ever lost or counted twice |
| NumberLedger.LockExcludes | backend/src/modules/applications/applications.service.ts:152-154 | two transactions past the lock for one code and year are one transaction, under any hash |
| NumberLedger.LockNameExactly | backend/src/modules/applications/applications.service.ts:153-160 | the lock is named after exactly what the counting pattern fixes |
| NumberLedger.ProtocolStep | backend/src/modules/applications/applications.service.ts:147-168 | every statement keeps the protocol: log and rows agree, numbers rise, a counted sequence is still free |
| NumberLedger.ProtocolHolds | backend/src/modules/applications/applications.service.ts:103-168 | the protocol holds over every interleaving, with rollbacks, deletions, code changes and colliding locks |
| NumberLedger.NumbersUnique | backend/src/modules/applications/applications.service.ts:147-168 | no two applications hold the same number |
| NumberLedger.NumbersRise | backend/src/modules/applications/applications.service.ts:156-163 | sequences of one code and year rise in commit order; without `_` they are 1, 2, 3 and so on |
| NumberLedger.GapArises | backend/src/modules/applications/applications.service.ts:156-160 | for every code with `_` a run in which its first number is 2 |
| NumberLedger.GapFreeExactly | backend/src/modules/applications/applications.service.ts:156-163 | all runs number a code without gaps if and only if it has no `_` |
| GapRuns.GapInTheSystem | backend/src/modules/applications/applications.service.ts:103-168 | two festivals, an application of each created, routed, confirmed and submitted: the second one's number is its festival's first, and 2, for every code with `_` whose numbers fit the column |
| GapRuns.GapFreeSystemExactly | backend/src/modules/applications/applications.service.ts:103-168 | all runs of the whole system number a code without gaps if and only if it has no `_` or no number of it fits the column |
| NumberDesk.Desk.Begin | backend/src/modules/applications/applications.service.ts:147-152 | reading the festival starts the transaction, for an unnumbered application only |
| NumberDesk.Desk.TakeLock | backend/src/modules/applications/applications.service.ts:153-154 | the lock is taken if free, else nothing moves |
| NumberDesk.Desk.CountNumbers | backend/src/modules/applications/applications.service.ts:156-160 | the row by row count is the size of the set the pattern selects |
| NumberDesk.Desk.Count | backend/src/modules/applications/applications.service.ts:156-162 | the transaction's sequence is that count plus one |
| NumberDesk.Desk.Commit | backend/src/modules/applications/applications.service.ts:163-168 | the number is saved, logged, and the lock released |
| NumberDesk.Desk.RollBack | backend/src/modules/applications/applications.service.ts:129-154 | a rolled back transaction leaves no number and no lock |
| Calls.StrangersRefused | backend/src/modules/applications/applications.service.ts:85-90 | edits, submissions, starts, pings and, without staff, completions by anybody but the organizer are forbidden in every state and change nothing |
| Calls.RefusedWith | backend/src/modules/approvals/approvals.service.ts:57-76 | with which error the other refused calls are refused: not found, the database, else bad request |
| Calls.CreateExactly | backend/src/modules/applications/applications.service.ts:37-51 | an application is created exactly when it would end after it starts: a draft with what was given and nothing else |
| Calls.UpdateExactly | backend/src/modules/applications/applications.service.ts:85-101 | an edit goes through exactly for the organizer, in DRAFT or CHANGES_REQUESTED, with the resulting times in order; given fields take their value, all others stay |
| Calls.AnalyzeExactly | backend/src/modules/routes/route-analysis.service.ts:80-96 | the version has exactly the suggested stations, unconfirmed; every other version keeps its rows |
| Calls.ConfirmExactly | backend/src/modules/routes/route-analysis.service.ts:98-108 | every row of the station and no other becomes confirmed |
| Calls.SubmitExactly | backend/src/modules/applications/applications.service.ts:116-168 | a submission goes through exactly for the organizer, in an editable status, with a station confirmed on the active route and a number of at most 50 characters |
| Calls.SubmitLeaves | backend/src/modules/applications/applications.service.ts:144-187 | the number it had or gets, SUBMITTED or RESUBMITTED, one history row, and a pending row for each old and each confirmed station |
| Calls.DecideExactly | backend/src/modules/approvals/approvals.service.ts:57-76 | a decision goes through exactly for a listed station, with a reason unless it approves, and room for the permit it would issue |
| Calls.DecideLeaves | backend/src/modules/approvals/approvals.service.ts:78-110 | the status is REJECTED if and only if some row is, CHANGES_REQUESTED if and only if none is rejected and some row asks for changes, whoever is pending, APPROVED if and only if all are, else UNDER_REVIEW; the permit is `PMT-` and the number, for the active route |
| Calls.StatusShowsRows | backend/src/modules/approvals/approvals.service.ts:83-92 | the same of every decided status in every run; submitted means all pending, LIVE all approved |
| Calls.StartExactly | backend/src/modules/live-tracking/live-tracking.service.ts:67-111 | a start goes through exactly for the organizer of an APPROVED application with a route and no procession LIVE; a new procession is NORMAL and unseen, an old one keeps what was seen of it |
| Calls.CompleteExactly | backend/src/modules/live-tracking/live-tracking.service.ts:113-131 | a completion goes through exactly while the procession is LIVE, not while its signal is weak or lost |
| Calls.RecordExactly | backend/src/modules/live-tracking/live-tracking.service.ts:141-152 | a ping is taken exactly from the organizer while the procession is LIVE, weak or lost |
| Calls.RecordLeaves | backend/src/modules/live-tracking/live-tracking.service.ts:156-185 | it is stored with its distance from the active route; past the row update the row is LIVE and DEVIATION, WARNING or NORMAL exactly as that distance is above one limit, between the two, or below both |
| Calls.RecordShown | backend/src/modules/live-tracking/live-tracking.service.ts:216-239 | a complete ping is what is shown from then on, cached or not |
| Calls.RecordAlerts | backend/src/modules/live-tracking/live-tracking.service.ts:187-214 | which alerts a ping raises, up to the statement where it dies |
| Calls.SweepLostExactly | backend/src/modules/live-tracking/gps-watchdog.service.ts:59-64 | a row is lost exactly when it is LIVE or weak, was updated, and that is longer ago than the limit |
| Calls.SweepWarningExactly | backend/src/modules/live-tracking/gps-watchdog.service.ts:69-74 | a row is weak exactly when it is LIVE, was updated, and that is longer ago than the shorter limit |
| Lifecycle.SoundStep | backend/src/modules/approvals/approvals.service.ts:71-110 | every call keeps status, approval rows, number, permit, history and procession in agreement |
| Lifecycle.SoundRun | backend/src/modules/applications/applications.service.ts:115-191 | in every reachable state: DRAFT has no number, rows or permit; SUBMITTED and RESUBMITTED only pending rows; the decided statuses are the aggregate of the rows; LIVE has every row approved; a permit exists, once, exactly when the history reached APPROVED |
| Lifecycle.IssuingFailsExactly | backend/src/modules/permits/permits.service.ts:52-75 | an admissible decision is refused if and only if it would issue the first permit for a number of more than 46 characters |
| Lifecycle.NumberAndPermitKept | backend/src/modules/permits/permits.service.ts:53-54 | number and permit, once there, survive every later edit, resubmission and approval; history only grows |
| Lifecycle.ConnectedStep | backend/src/modules/live-tracking/live-tracking.service.ts:113-129 | a call keeps the history connected unless it completes a procession whose application is not LIVE |
| Lifecycle.ConnectedExactly | backend/src/modules/live-tracking/live-tracking.service.ts:121-129 | the history is a connected path if and only if the run never completed off LIVE |
| Lifecycle.DisciplinedRun | backend/src/modules/live-tracking/live-tracking.service.ts:81-129 | when decisions stop at the start: connected history, a procession row exactly when LIVE or COMPLETED, active exactly when LIVE |
| Lifecycle.CompletedIsFinal | backend/src/modules/live-tracking/live-tracking.service.ts:113-131 | in such runs COMPLETED is never left and nothing is added to the history |
| Decisions.DecidedSince | backend/src/modules/approvals/approvals.service.ts:71-76 | after a point where all rows were pending, each decision that shows was made by that station since |
| Decisions.NoStaleApprovals | backend/src/modules/applications/applications.service.ts:133-187 | whenever APPROVED, every row was approved after the latest submission, and every station then confirmed on the active route has a row |
| Rulings.RunIsDecisions | backend/src/modules/approvals/approvals.service.ts:57-122 | between submission, start and completion, whatever else is called, rows, status and permit come to the counted decisions alone |
| Rulings.DecisionsFoldExactly | backend/src/modules/approvals/approvals.service.ts:78-110 | every such stretch ends with the rows and status of each station's last counted decision, if and only if the permit exists or its number fits |
| Rulings.RunsFoldExactly | backend/src/modules/approvals/approvals.service.ts:71-110 | every run without a submission, starts and completions included, ends with the rows of each station's last counted decision, and with the status of those rows when a decision had the last word, under the same condition |
| Rulings.DecisionOrderExactly | backend/src/modules/approvals/approvals.service.ts:78-110 | every reordering that keeps each station's own order, with any other calls in between, ends in the same rows and status, if and only if the permit exists or its number fits, or at most one station decides |
| Rulings.OrderMattersReached | database/migrations/0010_permits.sql:7 | from every new application with a longer number: two orders of the same decisions, one ending REJECTED, one CHANGES_REQUESTED |
| PermitOrder.PermitExactly | backend/src/modules/approvals/approvals.service.ts:94-110 | a stretch issues the permit if and only if it can be issued and after some counted decision every row is approved |
| PermitOrder.PermitOrderExactly | backend/src/modules/approvals/approvals.service.ts:94-110 | all orders of a stretch's decisions agree on the permit, if and only if none can be issued, or some station never approves, or everybody's last word is an approval, or it hangs on one station alone that approves at some time |
| PermitOrder.PermitDependsOnOrder | backend/src/modules/approvals/approvals.service.ts:94-110 | from every new application with two stations: two orders with the same status, one with a permit and one without |
| ApprovedContent.EditStep | backend/src/modules/applications/applications.service.ts:85-101 | only the organizer changes the particulars, and only in DRAFT or CHANGES_REQUESTED; times stay in order |
| ApprovedContent.TimesInOrder | database/migrations/0006_applications.sql:36 | in every run the start is before the end, and the organizer never changes |
| ApprovedContent.ParticularsExactly | backend/src/modules/applications/applications.service.ts:85-101 | from any moment on the particulars stay as they are, if and only if no edit with a new value goes through |
| ApprovedContent.ApprovedAsSubmitted | backend/src/modules/applications/applications.service.ts:166-187 | unless an edit has gone through since the submission, the particulars are as submitted |
| ApprovedContent.EditFollowsRequest | backend/src/modules/applications/applications.service.ts:85-101 | after a submission an edit or a resubmission goes through only after a station's request for changes has |
| ApprovedContent.UntouchedUpTo | backend/src/modules/applications/applications.service.ts:173-187 | until then the stations asked are the earlier ones and those confirmed at the submission |
| ApprovedContent.PermitIssued | backend/src/modules/permits/permits.service.ts:56-72 | every permit stems from a decision that approved the application, and names the route active at that moment |
| ApprovedContent.PermitFitsRoute | backend/src/modules/routes/routes.service.ts:87-88 | until a newer version is saved the active route is the permit's |
| ApprovedContent.PermitRouteExactly | backend/src/modules/permits/permits.service.ts:56-72 | the permit names the route active at a submission, if and only if no version was saved between it and the issuing decision |
| ApprovedContent.PermitSeenByAll | backend/src/modules/applications/applications.service.ts:133-187 | then every station confirmed on the permit's route at the submission has approved since |
| ApprovedContent.EditSlipsThrough | backend/src/modules/approvals/approvals.service.ts:83-101 | from every new application: asked for changes, edited, approved by the same station, without a resubmission |
| ApprovedContent.PermitForUnseenRoute | backend/src/modules/routes/routes.service.ts:87-88 | from every new application: a version saved after the submission is on the permit though no station of it was asked |
| Boundaries.FirstApprovalExactly | database/migrations/0010_permits.sql:7 | a submission whose number fits its column can be approved by its one station if and only if the number has at most 46 characters |
| Boundaries.LongNumbersNeverApproved | backend/src/modules/permits/permits.service.ts:64-72 | an application with a longer number never reaches APPROVED in any run |
| Boundaries.LateDecisionBreaksHistory | backend/src/modules/live-tracking/live-tracking.service.ts:124-128 | a rejection while LIVE and then completion disconnect the history |
| Boundaries.RestartBreaksGpsLog | backend/src/modules/live-tracking/live-tracking.service.ts:85-93 | a repeated approval and a second start alert GPS_WARNING twice without a recovery, though no alert is lost or overtaken |
| Boundaries.AlertedTwice | backend/src/modules/live-tracking/live-tracking.service.ts:85-93 | every new application has a run that does so |
| Boundaries.AlertLost | backend/src/modules/live-tracking/gps-watchdog.service.ts:65-77 | every new application has a run in which GPS_LOST is never alerted and the next ping alerts a recovery from nothing |
| Boundaries.AlertAfterRecovery | backend/src/modules/live-tracking/gps-watchdog.service.ts:59-67 | one in which a ping comes between the update and its alert, and the completed log is GPS_RECOVERED, GPS_LOST |
| Boundaries.AlertOvertaken | backend/src/modules/live-tracking/gps-watchdog.service.ts:33-40 | one in which two sweeps overlap and GPS_LOST is alerted while GPS_WARNING is still owed |
| Boundaries.RecoveryLost | backend/src/modules/live-tracking/live-tracking.service.ts:179-195 | one in which a ping ends a lost signal and dies before it says so |
| Boundaries.EdgeLost | backend/src/modules/live-tracking/live-tracking.service.ts:179-206 | one in which a ping leaves the route and dies before it says so |
| Boundaries.EdgeLostAfterRecovery | backend/src/modules/live-tracking/live-tracking.service.ts:187-206 | one in which a ping dies between its two alerts: the GPS log is in step, the deviation log is not |
| Boundaries.ShownAfterCompletion | backend/src/modules/live-tracking/live-tracking.service.ts:121-131 | one in which the position is still shown after the completion |
| Boundaries.JustLiveReached | backend/src/modules/live-tracking/live-tracking.service.ts:67-111 | the state these runs begin from is reached by every new application |
| LiveTracking.SignalFitsRun | backend/src/modules/live-tracking/gps-watchdog.service.ts:55-78 | in every run GPS_LOST and GPS_WARNING imply that the last update is longer ago than their limit |
| LiveTracking.SweepClassifies | backend/src/modules/live-tracking/gps-watchdog.service.ts:59-77 | a sweep without a ping leaves LOST if the last update is longer ago than the one limit by the first clock, else WARNING if longer ago than the other by the second, else LIVE |
| LiveTracking.SecondSweepIdle | backend/src/modules/live-tracking/gps-watchdog.service.ts:55-78 | a second sweep at the same instant changes nothing and owes no further alert |
| AlertLogs.AlertsFitStep | backend/src/modules/live-tracking/gps-watchdog.service.ts:59-77 | a call adds to the alerts raised or owed exactly the one its change of GPS health calls for, if and only if it is not a start on a weak or lost signal and neither loses an alert nor lets one overtake another |
| AlertLogs.AlertsFitExactly | backend/src/modules/live-tracking/gps-watchdog.service.ts:55-86 | at every moment of a run each change of health was alerted once and in order or is owed, if and only if the run has no such call |
| AlertLogs.HealthIsBlocks | backend/src/modules/live-tracking/gps-watchdog.service.ts:65-77 | a log whose alerts each belong where they are is blocks of WARNING, LOST or WARNING LOST, each closed by one RECOVERED, plus the open one |
| AlertLogs.GpsLogExactly | backend/src/modules/live-tracking/gps-watchdog.service.ts:55-86 | when decisions stop at the start, alerts keep up with the row throughout if and only if none is lost or overtaken |
| AlertLogs.GpsLogWellFormed | backend/src/modules/live-tracking/gps-watchdog.service.ts:65-77 | whenever the log has kept up it has, with what is owed, that form, the open block saying what the row says; at completion nothing is owed and no block is open |
| AlertLogs.EdgesAlternate | backend/src/modules/live-tracking/live-tracking.service.ts:197-214 | deviation alerts alternate, beginning with DEVIATION; an odd number means deviating now |
| AlertLogs.DeviationLogExactly | backend/src/modules/live-tracking/live-tracking.service.ts:164-214 | at every moment of a run they are the rising and falling edges of the classified distances and the row shows the last class, if and only if no ping dies before it has shown or alerted a change |
| RouteWatch.FixIsMeasured | backend/src/modules/live-tracking/live-tracking.service.ts:144-163 | every stored ping was measured against the route active when it came in |
| RouteWatch.AlertsAgainstPermitRoute | backend/src/modules/live-tracking/live-tracking.service.ts:155-163 | until a version newer than the permit's is saved the alerts are the edges of the distances from the permit's route |
| LiveTracking.CacheAlwaysStored | backend/src/modules/live-tracking/live-tracking.service.ts:171-221 | with evictions and crashes anywhere, a cached position is one in the location history |
| LiveTracking.CacheAgreesRun | backend/src/modules/live-tracking/live-tracking.service.ts:177-221 | without crashes the cache holds the row's own position or nothing |
| LiveTracking.CurrentLocationAgrees | backend/src/modules/live-tracking/live-tracking.service.ts:227-239 | without crashes a LIVE procession's position is the row's, cached or not; before and after there is none; only while the signal is weak or lost does the cache change the answer |
| LiveTracking.NothingAfterCompletion | backend/src/modules/live-tracking/live-tracking.service.ts:113-131 | in any run that ends with the procession over, a position is shown if and only if the last completion died with a key cached and nothing has evicted it since |
| Interleavings.EveryFileReachable | backend/src/modules/applications/applications.service.ts:37-51 | in every interleaving of all applications, each one's rows are those of a run of its own calls |
| Interleavings.Refines | backend/src/modules/applications/applications.service.ts:129-168 | whatever any call does, the numbers see one move of their protocol or none |
| Interleavings.RunRefines | backend/src/modules/applications/applications.service.ts:129-168 | each run of the whole system is, for the numbers, a run of the protocol |
| Interleavings.NumbersAndPermitsUnique | backend/src/modules/permits/permits.service.ts:64-72 | in every interleaving no application number and no permit number occurs twice |
| Interleavings.SequencesRise | backend/src/modules/applications/applications.service.ts:156-163 | in every interleaving sequences rise, and count up from 1 for codes without `_` |
| Interleavings.NumberedStay | backend/src/modules/applications/applications.service.ts:103-112 | a numbered application is never removed and keeps its number |
| Interleavings.SignalsTrueEverywhere | backend/src/modules/live-tracking/gps-watchdog.service.ts:55-78 | at every moment of every interleaving GPS_LOST and GPS_WARNING imply an update longer ago than their limit by the system's clock |
| Interleavings.SweepLostEverywhere | backend/src/modules/live-tracking/gps-watchdog.service.ts:59-64 | the first update reaches every application, and changes exactly those silent for too long |
| Interleavings.SweepWarningEverywhere | backend/src/modules/live-tracking/gps-watchdog.service.ts:69-74 | so does the second |
| Interleavings.CallExactly | backend/src/modules/applications/applications.service.ts:85-187 | a call on one application that nobody else is submitting is its step on that one and leaves every other, the numbers and the locks alone |
| Interleavings.BeginExactly | backend/src/modules/applications/applications.service.ts:115-151 | a first submission begins exactly for the organizer of an unnumbered, editable application with a station confirmed on its active route, reading the festival's code as it is then |
| Interleavings.CommitRefused | backend/src/modules/applications/applications.service.ts:156-168 | a number over 50 characters is refused at the save: the application stays as it was, transaction and lock are gone |
| Interleavings.RemoveExactly | backend/src/modules/applications/applications.service.ts:103-112 | exactly the organizer removes an application, as a draft |
| Interleavings.AbortExactly | backend/src/modules/applications/applications.service.ts:129-168 | a rolled back submission leaves neither transaction nor lock, and the files alone |
| ApplicationRecord.Record.constructor | backend/src/modules/applications/applications.service.ts:40-50 | a new application is a DRAFT with its first history entry and nothing else |
| ApplicationRecord.Record.Create | backend/src/modules/applications/applications.service.ts:37-51 | times out of order are refused, else that application is made |
| ApplicationRecord.Record.Update | backend/src/modules/applications/applications.service.ts:85-101 | owner, status and time checks in that order; the given fields change and no others, or nothing |
| ApplicationRecord.Record.CheckSubmit | backend/src/modules/applications/applications.service.ts:116-142 | the checks of submit in order, and the stations confirmed on the active route |
| ApplicationRecord.Record.ResetApprovals | backend/src/modules/applications/applications.service.ts:177-187 | every old row and every confirmed station ends PENDING, once |
| ApplicationRecord.Record.Submit | backend/src/modules/applications/applications.service.ts:115-191 | the whole new state of a submission, or the error and no change |
| ApplicationRecord.Record.AnalyzeAndSave | backend/src/modules/routes/route-analysis.service.ts:80-96 | the suggestions of one version replaced by unconfirmed ones |
| ApplicationRecord.Record.ConfirmStation | backend/src/modules/routes/route-analysis.service.ts:98-108 | the station confirmed on every version it was suggested for |
| ApplicationRecord.Record.AggregateStatus | backend/src/modules/approvals/approvals.service.ts:83-92 | a rejection shows before a request for changes, that before anything pending, and APPROVED only if all are |
| ApplicationRecord.Record.IssueForApplication | backend/src/modules/permits/permits.service.ts:52-75 | an existing permit is kept; else one named after the application, or the error |
| ApplicationRecord.Record.MoveTo | backend/src/modules/approvals/approvals.service.ts:94-110 | status, history entry and permit change together, or nothing does |
| ApplicationRecord.Record.Decide | backend/src/modules/approvals/approvals.service.ts:57-122 | row, status, history and permit in one transaction, undone when the permit cannot be issued |
| ApplicationRecord.Record.Start | backend/src/modules/live-tracking/live-tracking.service.ts:67-111 | owner, status, route and procession checks; the procession LIVE, new or again |
| ApplicationRecord.Record.Complete | backend/src/modules/live-tracking/live-tracking.service.ts:113-131 | procession and application completed, history extended, cache dropped unless it dies first |
| ApplicationRecord.Record.RaiseRecovery | backend/src/modules/live-tracking/live-tracking.service.ts:187-195 | a recovery is alerted exactly on a weak or lost signal |
| ApplicationRecord.Record.RaiseDeviation | backend/src/modules/live-tracking/live-tracking.service.ts:197-214 | entering and leaving DEVIATION are alerted, and nothing in between |
| ApplicationRecord.Record.RecordLocation | backend/src/modules/live-tracking/live-tracking.service.ts:141-224 | history, row, alerts and cache after one ping, up to the statement where it dies |
| ApplicationRecord.Record.GetCurrentLocation | backend/src/modules/live-tracking/live-tracking.service.ts:227-239 | the cached position, else the LIVE row's, else none |
| GpsWatchdog.Table.SweepLost | backend/src/modules/live-tracking/gps-watchdog.service.ts:59-67 | a row changes, to GPS_LOST, if and only if it is LIVE or weak and was updated longer ago than the limit; each is alerted once, or as many as inserts go through before one throws |
| GpsWatchdog.Table.SweepWarning | backend/src/modules/live-tracking/gps-watchdog.service.ts:69-77 | a row changes, to GPS_WARNING, if and only if it is LIVE and was updated longer ago than the limit; alerted likewise |
| GpsWatchdog.Table.CheckStaleProcessions | backend/src/modules/live-tracking/gps-watchdog.service.ts:33-78 | both updates over the whole table, and which rows are alerted; an alert that throws leaves the rows behind it without one and, in the first loop, skips the second update |
| GpsWatchdog.RowsAreDossiers | backend/src/modules/live-tracking/gps-watchdog.service.ts:55-78 | row by row the table does what the sweeps do to the application's own rows, the alert raised or lost |
| GpsWatchdog.OneAlertPerSweep | backend/src/modules/live-tracking/gps-watchdog.service.ts:59-77 | no sweep calls for two alerts for a row, and it calls for one exactly when the row changes |
| Csv.FieldRoundTrip | backend/src/modules/reports/csv.util.ts:5-12 | a written field reads back as its text, whatever quotes, commas, CR or LF it holds |
| Csv.QuotedExactly | backend/src/modules/reports/csv.util.ts:5-12 | a text without quote, comma, CR or LF is written as it is, any other in quotes |
| Csv.FieldsExactly | backend/src/modules/reports/csv.util.ts:14-18 | the first record holds the headers, the others each column's value of their row or nothing |
| Csv.RecordRoundTrip | backend/src/modules/reports/csv.util.ts:14-17 | a written line reads back as its fields |
| Csv.CsvRoundTrip | backend/src/modules/reports/csv.util.ts:14-18 | reading the export gives exactly the header and field texts if and only if there is a column |
| Csv.SameWidth | backend/src/modules/reports/csv.util.ts:14-18 | every record has one field per column |
| Csv.CsvInjective | backend/src/modules/reports/csv.util.ts:14-18 | equal exports are exports of equal tables |
| Sql.Push | backend/src/modules/audit/audit-logs.service.ts:44-68 | pushing a condition with its parameters narrows the selection by exactly that condition and keeps `$1..$n` each used once |
| Sql.ParamsMayGrow | backend/src/modules/audit/audit-logs.service.ts:70-90 | LIMIT and OFFSET parameters at the end change nothing about the conditions |
| Sql.PagesCoverAll | backend/src/modules/audit/audit-logs.service.ts:41-43 | pages 1 to ceil(total / pageSize) concatenate to exactly the selected rows; later ones are empty |
| AuditLogs.Build | backend/src/modules/audit/audit-logs.service.ts:44-68 | for every combination of filters the clause selects exactly the entries the filter describes |
| AuditLogs.Query | backend/src/modules/audit/audit-logs.service.ts:40-92 | the first page unless another is asked for, 25 entries unless asked otherwise, between 1 and 100; data is that page of the matching entries, total how many match |
| PublicPortal.Build | backend/src/modules/public/public.service.ts:20-46 | the counter names the next placeholder throughout, and the clause means the filter |
| PublicPortal.ListProcessions | backend/src/modules/public/public.service.ts:15-67 | items is the asked page of the matching applications, total how many match |
| PublicPortal.OnlyPublicStatuses | backend/src/modules/public/public.service.ts:20-33 | whatever the filter, only APPROVED, LIVE or COMPLETED applications are listed |
| ControlRoom.Build | backend/src/modules/control-room/control-room.service.ts:14-43 | the clause means the filter, the two-parameter station or area condition included |
| Areas.StoredRingsAreClosed | backend/src/modules/areas/areas.service.ts:33-43 | a boundary is accepted exactly when closing it gives four points; what is stored is closed and begins with the ring given |
| Areas.Build | backend/src/modules/areas/areas.service.ts:80-94 | the SET list assigns exactly the given fields, `$1..$n` in order |
| Areas.ProvidedExactly | backend/src/modules/areas/areas.service.ts:80-94 | each of the five columns gets its own field, the boundary closed, and no other column is touched |
| Areas.Table.Update | backend/src/modules/areas/areas.service.ts:79-101 | exactly the given fields of exactly the named area change; unknown id and short boundary change nothing |
| Conflicts.TimesOverlapExactly | backend/src/modules/conflicts/conflicts.service.ts:70-90 | the date and time test is symmetric and true exactly when the events share an instant |
| Conflicts.CandidatesProper | backend/src/modules/conflicts/conflicts.service.ts:70-90 | candidates are listed once, are never the application itself, and each meets the query's conditions |
| Conflicts.CandidatesExactly | backend/src/modules/conflicts/conflicts.service.ts:70-90 | the list has exactly the other applications on the same date at an overlapping time, both active and both with paths that come close, each with its own overlap |
| Conflicts.SeverityExactly | backend/src/modules/conflicts/conflicts.service.ts:28-34 | HIGH from the one limit up, MEDIUM from the other up to it, LOW below both |
| Conflicts.SoundRun | backend/src/modules/conflicts/conflicts.service.ts:92-144 | after any detections from either side and resolutions: one row per unordered pair, severity that of the stored overlap |
| Conflicts.DetectPreserves | backend/src/modules/conflicts/conflicts.service.ts:92-114 | detection alters no resolution and no row of a pair that is not a candidate |
| Conflicts.DetectStores | backend/src/modules/conflicts/conflicts.service.ts:92-114 | after it every candidate pair has a row with the overlap just measured |
| Conflicts.DetectedAll | backend/src/modules/conflicts/conflicts.service.ts:92-114 | after it every application in conflict has a row for the pair with that overlap |
| Conflicts.DetectAdds | backend/src/modules/conflicts/conflicts.service.ts:107-113 | a new row is of a listed candidate, detected for this application and unresolved |
| Conflicts.DetectIdempotent | backend/src/modules/conflicts/conflicts.service.ts:92-114 | repeating it changes nothing |
| Conflicts.Table.DetectForApplication | backend/src/modules/conflicts/conflicts.service.ts:36-117 | errors for an unknown application, a stranger, or a missing path; else a row for every application in conflict, through the upserts of all candidates |
| Conflicts.Table.ResolveConflict | backend/src/modules/conflicts/conflicts.service.ts:138-144 | exactly the row with the id gets the resolution and nothing else changes, or not found |
| Migrations.LessExactly | database/migrate.js:34-36 | names are sorted by the first character that differs, a prefix first |
| Migrations.SqlFilesFit | database/migrate.js:34-36 | the files of a run are the .sql files of the directory, each once, sorted |
| Migrations.RunsClean | database/migrate.js:38-56 | across runs that fail or crash anywhere each file took effect at most once and failed ones not at all |
| Migrations.FullRun | database/migrate.js:38-56 | an undisturbed run applies exactly what was missing, in filename order |
| Migrations.PrefixExactly | database/migrate.js:34-36 | added files always sort last if and only if the old list is a prefix of the new |
| Migrations.AppliedIsPrefix | database/migrate.js:30-56 | then the applied set is always a prefix of the sorted files |
| Migrations.ResumedExactly | database/migrate.js:30-56 | failed runs and a successful one equal a clean run if and only if the applied set was a prefix |
| Migrations.LateFile | database/migrate.js:30-56 | for any two migrations, applying the later one first leaves the record, and the effects, in that order for good |
| Migrations.ResumedIsClean | database/migrate.js:30-56 | with files only added at the end, resuming always equals the clean run |
| Migrations.Runner.RunAll | database/migrate.js:21-60 | the loop applies the remaining files up to the first that does not commit, and reports the end exactly when all are applied |
| Routes.VersionsNumberedAndNewestActive | backend/src/modules/routes/routes.service.ts:50-91 | in every run versions are numbered 1..n per route and the active route is version n |
| Routes.VersionsFrozen | backend/src/modules/routes/routes.service.ts:50-125 | no later call changes the points, number or addresses of a stored version |
| Routes.PathFollowsRequest | backend/src/modules/routes/routes.service.ts:103-114 | the calculated path visits start, waypoints and destination as given, in whatever order the rows come back |
| Routes.SavedPoints | backend/src/modules/routes/routes.service.ts:75-85 | in every run a saved version keeps its points, numbered from 0, typed by their place, each with address, place and position |
| Routes.SavedVersion | backend/src/modules/routes/routes.service.ts:61-73 | and its two addresses and the reason for the change |
| Routes.MeasuredExactly | backend/src/modules/routes/routes.service.ts:94-125 | in every run a saved version has a measure if and only if it has been calculated since, and the path is that of its own points in order, distance and duration those of that path |
| Routes.Service.FindOrCreateRoute | backend/src/modules/routes/routes.service.ts:33-48 | the application's route, created if missing, or not found |
| Routes.Service.CreateVersion | backend/src/modules/routes/routes.service.ts:50-91 | the whole new state: next number, numbered and typed points, active route |
| Routes.Service.Calculate | backend/src/modules/routes/routes.service.ts:94-125 | path, length and duration of one version; refused below two points |
| RouteBuilder.SavedRouteReloads | frontend/src/app/features/route-builder/route-builder.component.ts:249-319 | a saved route of any length reloads as the same form, after any later calls and with its points in any order |
| RouteBuilder.WaypointsComeBack | frontend/src/app/features/route-builder/route-builder.component.ts:252-266 | waypoints load in the order they were saved |
| RouteBuilder.MoveThereAndBack | frontend/src/app/features/route-builder/route-builder.component.ts:277-284 | two neighbours change places and nobody else; past either end nothing moves; the way back undoes it |
| RouteBuilder.Component.PrefillFrom | frontend/src/app/features/route-builder/route-builder.component.ts:249-267 | form and waypoints are those of the version; the change reason stays |
| RouteBuilder.Component.MoveWaypoint | frontend/src/app/features/route-builder/route-builder.component.ts:277-284 | neighbours change places; at either end nothing moves |
| RouteBuilder.Component.SaveRoute | frontend/src/app/features/route-builder/route-builder.component.ts:307-319 | nothing is sent exactly while an address is missing; else start, destination, waypoints in order, and the reason if one is written |
| RouteAnalysis.Analyze | backend/src/modules/routes/route-analysis.service.ts:26-77 | errors for a missing or uncalculated version; else flagged jurisdictions, or the nearest five unflagged |
| RouteAnalysis.SharesExactly | backend/src/modules/routes/route-analysis.service.ts:28-60 | each crossed station is listed once, with its share of the path rounded to hundredths of a percent, larger shares first |
| RouteAnalysis.NearestExactly | backend/src/modules/routes/route-analysis.service.ts:62-77 | a route that crosses nothing gets the nearest five, in that order, nobody responsible |
| RouteAnalysis.FlagsArePrefix | backend/src/modules/routes/route-analysis.service.ts:54-60 | responsible stations form a prefix; behind the first, a flag means at least 14.995 % of the path |
| RouteAnalysis.FlagsWithoutLength | backend/src/modules/routes/route-analysis.service.ts:44-60 | on a path without length exactly the first crossed station is flagged |
| RouteAnalysis.SomebodyResponsible | backend/src/modules/routes/route-analysis.service.ts:54-76 | some station is responsible if and only if a jurisdiction is crossed |
| RouteAnalysis.ResponsibleShare | backend/src/modules/routes/route-analysis.service.ts:13 | several responsible stations each hold their own 14.995 % of the path |
| RouteAnalysis.AtMostSix | backend/src/modules/routes/route-analysis.service.ts:13 | without overlapping jurisdictions at most six stations are responsible |
| RouteAnalysis.SixReached | backend/src/modules/routes/route-analysis.service.ts:13 | a route with exactly six |
| RouteAnalysis.FoundOnce | backend/src/modules/routes/route-analysis.service.ts:80-94 | an analysis names a station once, so no insert violates the UNIQUE constraint |
| RouteAnalysis.Table.AnalyzeAndSave | backend/src/modules/routes/route-analysis.service.ts:80-96 | the version has exactly the new rows, all unconfirmed; no other row has changed |
| RouteAnalysis.Table.ConfirmStation | backend/src/modules/routes/route-analysis.service.ts:98-108 | exactly the application's rows of the station are confirmed |
| RouteAnalysis.ReanalysisWithdraws | backend/src/modules/applications/applications.service.ts:133-142 | analyzing the active version again makes the application unsubmittable |
| RouteAnalysis.OneConfirmationIsEnough | backend/src/modules/applications/applications.service.ts:133-142 | after it, confirming a station makes it submittable exactly if the station was suggested, and asks that station alone |
| Reports.ScopeApplications | backend/src/modules/reports/reports.service.ts:11-33 | the shared scope means the filter, placeholders in order |
| Reports.CountsAddUp | backend/src/modules/reports/reports.service.ts:40-81 | over distinct keys that cover the scope the counts add up to the total |
| Reports.LeftJoinGroups | backend/src/modules/reports/reports.service.ts:56-67 | every left row is exactly one group, zero counts included, because the scope is in the ON clause |
| Reports.LeftJoinCounts | backend/src/modules/reports/reports.service.ts:56-81 | each group counts exactly its applications in scope |
| Reports.Summary | backend/src/modules/reports/reports.service.ts:40-53 | the total, and a breakdown by status that adds up to it |
| Reports.StatusesExactly | backend/src/modules/reports/reports.service.ts:40-53 | a status is in the breakdown exactly when an application in scope has it |
| Reports.ByKey | backend/src/modules/reports/reports.service.ts:56-81 | one count per festival or event type, adding up to the total |
| Reports.Conservation | backend/src/modules/reports/reports.service.ts:40-81 | total, by status, by festival and by event type agree for every database and filter |

## Left out

- Overlapping calls on one application (two submissions, a removal against a submission, concurrent decisions, two pings, a watchdog update between a ping's reading of the procession and its own update): the code takes no lock that would serialise them, and the model assumes they are; what `AlertLogs` says of exactly when the logs are right is said under that assumption.
- An alert is one entry of the log, whoever receives it: its inserts for several recipients are not told apart.
- ApplicationRecord.Record.Create: the service saves the application and its first history row in two statements outside a transaction; a crash between them, which leaves a history that does not begin at DRAFT, is not modelled.
- ApplicationRecord.Record.Update: columns other than festival, year and times are one value, given or kept as a whole.
- Interleavings.EveryFileReachable: the system of all applications is modelled on values; as statements over shared fields only the numbering transaction (`NumberDesk`) and the watchdog (`GpsWatchdog`) are.
- Routes.Service.CreateVersion: the service issues its inserts outside a transaction; a crash between them is not modelled.
- RouteAnalysis.Table.AnalyzeAndSave: likewise atomic here.
- RouteAnalysis.Analyze: takes the rows of the jurisdiction query as an argument that meets the query's meaning, in any order of ties; the geometry behind them, distances and the widths of the numeric columns are not modelled.
- RouteAnalysis.Table.ConfirmStation: without the not-found error, which depends on what the driver returns for UPDATE ... RETURNING; elsewhere in the repository that is a pair of rows and count (gps-watchdog.service.ts:59, conflicts.service.ts:139), whose length is never 0.
- ApplicationRecord.Record.ConfirmStation: likewise.
- ApplicationRecord.Record.constructor: the time order is a precondition; `Create` has the error.
- Areas.Table.Update: UNIQUE and NOT NULL violations are not modelled.
- AuditLogs.Query: tables are taken to be in the order of the query's ORDER BY, LIKE escapes and text collation are left out.
- Csv.CsvRoundTrip: a cell is the text its value is converted to; String(value) and toISOString are not modelled.
- Migrations.SqlFilesFit: sorts by characters, not by UTF-16 units, which differ beyond the basic plane.
- Columns that only record who and when (decided_by, issued_by, changed_by, qr_token, timestamps), and speed, heading, accuracy and recordedAt of a broadcast.
- Removal refused by a foreign key; and times are numbers here, so a start equal to a stored end, which the code compares as texts of different length and leaves to the constraint chk_application_time, is refused with the ordinary error.
- Reports by area, by station, on conflicts and on deviations, and the row export: the same scope and joins again.
- Reading calls without a property of their own (`findAll`, `findOne`, `getDetail`, verification of a permit by its token).
- Controllers, guards, tokens, rate limits, notification delivery, sockets, file storage, PostGIS and the rest of the user interface.
