# Metering ledger: a verified model

This project models the usage ledger of the metering service in Dafny 4.11 and proves what the service promises
about it: idempotent batch ingestion with its transactional outbox, version-locked meters, the grouped, paged and
time-bucketed usage query, and the HTTP idempotency middleware in front of them. `dafny verify dfyconfig.toml`
checks everything.

## How the model is laid out

| module | what it holds |
|---|---|
| `Ledger` | the entities and the committed tables (meters, ingestion keys, facts, outbox) |
| `Text`, `Order`, `Partition`, `Decimal`, `Json` | trimming and lowering, strict orders and sorting, grouping a sequence by key, decimal text, JSON numbers read as floats |
| `Validation` | the checks of `RecordUsage`, with and without the meter and scope caches |
| `Ingestion` | one ingestion transaction as a function of the tables, and what it amounts to |
| `Meters`, `Soundness` | meter versions and their log; the invariant of the tables and the commits that keep it |
| `Database`, `Service` | the imperative operations: a connection with its transaction, and `metering.Service` on top of it |
| `Interleaving`, `InterleavingProofs`, `Runs` | any number of calls at once, one statement per step, with aborts and lost acknowledgements |
| `PublishedFacts` | what a consumer of the usage.recorded rows can rely on |
| `Retry`, `HttpRetry`, `ConcurrentPosts` | clients that repeat one batch, directly, through the middleware one post after the other, and with all posts at once |
| `Calendar`, `Dialects` | Gregorian months, `AddDate`, windows; the Postgres and MySQL expressions |
| `Query`, `Rollup`, `LastAggregate`, `QueryService`, `QueryAnswers` | a denotation of the aggregate SQL, its laws, `QueryUsage`, and the laws of its answers page by page |
| `MeterStatus` | where a committed fact's meter was read, and what became of its row until the commit |
| `Idempotency`, `Fingerprint`, `IdempotentRuns` | the middleware as code, the bytes it hashes, and the middleware as a step system |
| `HttpAnswers` | the bodies and envelopes the HTTP handlers answer with |
| `Scenarios`, `ScenarioPosts` | concrete runs: those in which a caller gets something unexpected, the life of an idempotency key, and a batch posted twice |

Transactions end in one of five ways (`Database.Fate`): the begin fails, a rollback fails, the commit fails, the
commit lands but the caller hears an error, or it commits. Fact ids come from a fresh supply; the clock, the caller,
the access verifier, the JSON codec and the rendering of dimensions as text are parameters. Instants are integers in
nanoseconds.

## Where the code does not keep a promise in full

Each of these has a failing input and an exact condition, proved in both directions.

- The reported end of a day or month window is the start of the next one exactly when the offset of the location
  changes between the two by just the slip of the month, which is not 0 only west of Asia/Shanghai for a month before
  of another length. As long as offsets change by less than a day, that means: the same offset at both, and a day, a
  location at or east of Asia/Shanghai, or months of equal length (`Calendar.NextWindowExact`, for any clock rules). In
  UTC the February window of every common year ends three days late (`Calendar.UtcFebruaryEndsLate`); the window in
  which clocks are set back, as in Sydney every April, ends an hour late (`Calendar.SetBackEndsLate`).
- A page is the intended one exactly if `(page-1)*pageSize` fits 64 bits or wraps to an offset past the end
  (`QueryAnswers.AnswerIsIntendedExactly`); with 64 items a page, page 2^58 + 1 of every accepted request shows
  page 1 again (`QueryAnswers.OverflowShowsFirstPage`).
- Two points of a gRPC answer show the same window and dimensions exactly when, of the facts its filter lets through,
  one window has a fact without dimensions (JSON null) and one with the empty object
  (`QueryAnswers.AnswersLookAlikeIff`); two such events are accepted and recorded in `Scenarios.LookAlikesHappen`. Over
  HTTP they print as null and {} and items always differ (`HttpAnswers.HttpItemsDiffer`).
- A replayed success carries the original body exactly if every number in it is one that a 64-bit float prints again
  (`HttpAnswers.ReplyIsRepeatedExactly`), since the body passes through a field of type `any`. All integers up to a
  bound are such numbers exactly when the bound is at most 2^53 (`Json.SurvivalBound`). The routes that the shipped
  configurations list (config/config.yaml:113-117) are not affected: failures, recorded and adjusted usage carry no
  number, and a meter only its version (`HttpAnswers.ListedRoutesReplay`). If `http_paths` is extended by the query
  route, a total of 2^53 + 1 is replayed as 2^53 (`Scenarios.LargeTotalIsReplayedWrong`).
- Another POST request hashes to the fingerprint of a request exactly if the body starts with POST, NUL, a route and
  NUL, or contains that behind another NUL, or the subject ends with or contains such a mark
  (`Fingerprint.CollidesExactly`); `Fingerprint.SubjectsCollide` is a colliding pair. Requests of one subject never
  collide.
- MySQL's `last` agrees with Postgres' exactly when `group_concat_max_len` leaves the newest quantity whole or that
  quantity is 0 (`Dialects.LastAgreesExactly`), which 20 characters guarantee and 19 do not
  (`Dialects.LastAgreesFromTwenty`).
- The meter of a committed fact was active in the check in which the call read it, and is active at the commit exactly
  if no version of it was committed since or the last one left it active (`MeterStatus.MeterStatusAtCommit`);
  `Scenarios.FactOfDisabledMeter` is a run that commits a fact of a disabled meter.

## Model

| member | source | states |
|---|---|---|
| Text.TrimIsNormal | internal/metering/service.go:131 | trimming returns a string without outer space and leaves exactly such strings alone |
| Text.TrimCutsOnlySpace | internal/metering/service.go:131 | trimming cuts off space on both sides and nothing else |
| Text.SpacesInFull | internal/metering/service.go:131 | the characters that count as space, in full |
| Text.LowerReplacesCapitals | internal/metering/service.go:53 | lowering replaces each capital letter by its small one and leaves every other character where and as it is |
| Text.CodesAndKeys | internal/metering/service.go:27-28 | a meter code has 2 to 128 and a dimension key 1 to 64 characters, the first a small letter, the others small letters, digits, dot, underscore or hyphen |
| Order.LessMeans | internal/metering/service.go:309 | a text comes before another if and only if it is cut short or has the smaller character where they first differ |
| Text.CodeIsNormal | internal/metering/service.go:53 | the normal form of a code is trimmed and stable under normalising again (letters are lowered in ASCII) |
| Validation.ValidateDimensions | internal/metering/service.go:312-327 | accepts exactly the entries whose keys are all among the meter's keys and whose values are not blank |
| Validation.CheckNext | internal/metering/service.go:130-169 | one event checked through the caches gives the outcome of a check without caches and keeps the caches truthful; the verifier is asked only about a scope not yet verified |
| Validation.CheckBatch | internal/metering/service.go:126-170 | the cached loop returns the facts, or the first error, of checking every event alone, and asks the verifier at most once per distinct scope, only about scopes of the batch |
| Validation.CheckedFactIsSound | internal/metering/service.go:131-169 | an accepted event became a normalised fact with the request's ids, whose dimension keys its meter lists, at most five minutes ahead, in a granted scope |
| Validation.AcceptedExactly | internal/metering/service.go:132-169 | an event is accepted if and only if its fields are complete, an adjustment has a reason, a user is of the tenant, the scope is granted, the meter is found and active, the dimensions fit and the time is at most five minutes ahead; the fact keeps the requested time, or now, and the caller |
| Validation.FactCarriesTheEvent | internal/metering/service.go:131-169 | the fact of an accepted event carries all its fields, texts trimmed and the meter code lowered, at version 1 with the caller and the clock in its audit |
| Validation.RefusedExactly | internal/metering/service.go:132-167 | which error an event is refused with: that of the first check that fails, in the source's order |
| Ingestion.ProcessKeys | internal/metering/repository.go:95-124 | after a batch without clash every event is owned by its stored key, else by the first fact of the batch that names it |
| Ingestion.ProcessClashes | internal/metering/repository.go:120-122 | a batch clashes if and only if some event, stored or earlier in the batch, belongs to another tenant, application or meter |
| Ingestion.ProcessResults | internal/metering/service.go:175-183 | on success results align with inputs, carry the owner's fact id, and Duplicate is false exactly for the first occurrence of an event absent before |
| Ingestion.ProcessInserts | internal/metering/service.go:181-186 | the inserted facts are exactly those of the new events, in batch order |
| Ingestion.ClashKeepsPartialResults | internal/metering/service.go:176-180 | results returned beside a clash are those of the longest prefix without a clash |
| Ingestion.BatchIsFoldOfSingles | internal/metering/service.go:172-192 | a batch leaves the keys and facts that recording its events one by one leaves, and clashes exactly when that does |
| Ingestion.ProcessGrows | internal/metering/repository.go:95-124 | keys that others add, away from those a batch uses, change nothing it does |
| Ingestion.ProcessRepeats | internal/metering/repository.go:117-123 | a batch whose events are all owned by their targets inserts nothing and answers only duplicates, with the stored ids |
| Ingestion.ScopesAreDistinct | internal/metering/service.go:187-191 | the scope order has every scope of the inserted facts once and no other |
| Ingestion.RowsPublishInserted | internal/metering/service.go:193-198 | the outbox rows of a batch publish exactly its inserted facts, each once |
| Ingestion.IngestKeepsLedger | internal/metering/service.go:171-201 | an ingestion keeps keys and facts one to one and the published facts equal to the facts table |
| Ingestion.OneFactPerEvent | migrations/postgres/000002_metering.up.sql:6-13 | although the facts table has no unique event column, an event has one fact if it has a key and none otherwise, and the fact matches the key |
| Meters.SortedKeysAreSorted | internal/metering/service.go:296-311 | the normalised keys are strictly sorted and are exactly the lowered, trimmed inputs |
| Meters.NormalizeKeys | internal/metering/service.go:296-311 | refuses exactly when some key does not match the pattern, else returns those keys sorted without repeats |
| Meters.NamesAreRead | internal/metering/service.go:293-295 | exactly sum, count, max, last and active, disabled, archived are names of an aggregation and a status, each read as what it names |
| Meters.StaleReadIsHarmless | internal/metering/service.go:78-88 | the value built from an old read of the row, and published, is what the compare-and-set makes of the current row |
| Meters.CreateKeepsLogs | internal/metering/service.go:60-66 | a created meter starts its log with the created row of version 1, every other log is unchanged, and all logs stay complete |
| Meters.UpdateKeepsLogs | internal/metering/repository.go:49-59 | a matching compare-and-set rewrites one row and extends its log, and no other, by exactly the updated row of the next version |
| Meters.UsageKeepsLogs | internal/metering/service.go:193-198 | ingestion leaves every meter log unchanged |
| Soundness.IngestKeepsSound | internal/metering/service.go:171-201 | an ingestion of admitted facts with fresh ids keeps the whole table invariant and only adds rows |
| Soundness.CreateKeepsSound | internal/metering/service.go:61-66 | creating a meter keeps the table invariant and only adds rows |
| Soundness.UpdateKeepsSound | internal/metering/service.go:84-89 | an update keeps the table invariant, and every fact stays admitted since code and keys are never written |
| Database.Connection.ClaimUsage | internal/metering/repository.go:95-124 | claims an unused event, answers the stored id for the same target, refuses another target, and changes the keys only when it claims |
| Database.Connection.InsertUsage | internal/metering/repository.go:126-129 | appends the fact unless a row with its id and time exists |
| Database.Connection.AddOutbox | internal/metering/repository.go:203-206 | appends the row and changes nothing else |
| Database.Connection.CreateMeter | internal/metering/repository.go:44-47 | appends the meter unless its id or code is used |
| Database.Connection.UpdateMeter | internal/metering/repository.go:49-59 | rewrites name, description, status, version and update audit where id and version match, and reports whether any row did |
| Database.Connection.Commit | internal/database/transaction.go:31-34 | the tables take the transaction's rows if the commit lands, heard or not, and stay as they were otherwise |
| Database.UsageByIdFinds | internal/metering/repository.go:131-138 | with unique ids the lookup in a fact's scope returns that fact |
| Service.Service.ClaimAndInsert | internal/metering/service.go:173-192 | the loop ends with the keys, facts, results and per-scope groups of the batch function, or stops at the first clash |
| Service.Service.EmitRows | internal/metering/service.go:193-198 | adds one row per scope, in first-insert order, with that scope's facts in insert order |
| Service.Service.Within | internal/database/transaction.go:17-35 | a clash or failure leaves the tables unchanged, and a failed rollback hides the clash; otherwise the whole batch lands at once, even if the acknowledgement is lost |
| Service.Service.RecordUsage | internal/metering/service.go:118-202 | the new tables, results and error are those of the specification for every input and ending; the table invariant is kept and rows are only added |
| Service.RecordKeepsSound | internal/metering/service.go:118-202 | recording keeps the table invariant and only adds rows, whatever the outcome |
| Service.BatchesRefusedAtOnce | internal/metering/service.go:119-125 | an anonymous caller, an empty batch and one of more than 500 events are refused, and the first event error is the batch's, with the tables unchanged |
| Service.TransactionEndings | internal/database/transaction.go:17-35 | for each ending of the transaction, what becomes of the tables and what the caller hears |
| Service.StatusDecidesRecording | internal/metering/service.go:156-158 | an event that lacks nothing else is refused with MeterInactive under a disabled or archived meter and recorded under an active one |
| Service.Service.CreateMeter | internal/metering/service.go:48-68 | refuses bad requests as Invalid and used codes; on success the meter has the requested code, texts, aggregation and sorted keys, is active at version 1, and row and event are committed together or not at all |
| Service.Service.UpdateMeter | internal/metering/service.go:70-91 | refuses other status texts, blank names and versions below 1 as Invalid, missing meters as NotFound and other versions as stale; on success the stored row and its one event have the trimmed name and description and the named status, at version expected+1 |
| Service.RevisionKeepsSound | internal/metering/service.go:78-90 | an update built from a row that was read keeps the invariant and leaves the published value as the row |
| Service.Service.GetUsage | internal/metering/service.go:98-107 | answers if and only if the caller is authenticated, a user asks for its own tenant, the trimmed scope is granted and holds a fact of that id, which is the answer; each failing condition has its error; a user gets facts of its own tenant only |
| Service.Service.AdjustUsage | internal/transport/grpc/metering_server.go:83-94 | whenever the record succeeds, and whatever others commit before the read-back, that finds a stored fact with the requested normalised event, tenant, application and meter, an old one exactly if reported as duplicate |
| Service.AdjustReadsBack | internal/transport/grpc/metering_server.go:85-93 | after a successful record the answered id leads the same caller to the fact that owns the event, on the tables right after it and on all later ones |
| InterleavingProofs.CommitIsAtomic | internal/metering/service.go:172-200 | an ingestion whose statements ran between those of other calls commits and answers exactly as if its batch ran at the moment of commit |
| InterleavingProofs.InsertSucceeds | internal/metering/service.go:184-186 | after a claim the fact insert never meets the primary key |
| InterleavingProofs.StepKeepsInv | internal/metering/service.go:118-202 | every step of every call, statement, commit, abort or meter change, keeps the invariant of tables and open calls |
| InterleavingProofs.RunsKeepInv | internal/metering/service.go:48-202 | the invariant holds after every run |
| Runs.RunsOnlyExtend | internal/metering/repository.go:44-129 | from any point of a run to its end rows are only added, facts and keys never change, meters keep code and keys, given answers stay given |
| Runs.EveryRunOneFactPerEvent | internal/metering/service.go:172-200 | in every run keys and facts are one to one with equal fact id, event id, tenant, application, meter, time and audit, and no event has two facts |
| Runs.EveryRunPublishesTheLedger | internal/metering/service.go:173-198 | in every run the facts in all usage.recorded rows are the facts table, each once, none from a batch that did not commit |
| Runs.BatchRows | internal/metering/service.go:187-198 | a batch adds one row per distinct scope in first-insert order, with the published facts of that scope in insert order and the id of the first |
| PublishedFacts.EveryRunPublishesEachFact | internal/metering/service.go:357-361 | in every run each stored fact has exactly one payload under its id, with all its fields and its dimensions, empty for null; and every payload is that of a stored fact |
| PublishedFacts.EveryRunBillsTheLedger | internal/metering/service.go:191-198 | in every run the published quantities of a tenant, application and meter add up to those of its stored facts |
| PublishedFacts.RowsCarryTheirFacts | internal/metering/service.go:187-198 | each row carries the facts of its scope in insert order, all of that scope, under the id of the first, with the batch's time and actor |
| Runs.AbortLeavesNothing | internal/database/transaction.go:25-30 | a call can always be aborted, which leaves the tables and all other calls as they were |
| Runs.ClaimEndings | internal/metering/repository.go:95-124 | in an open call a new event is claimed, an event of the same target is answered with the stored id and the call goes on, and one of another target ends the call |
| Runs.EveryRunMeterLog | internal/metering/service.go:59-91 | in every run a meter at version v has exactly v published versions, 1 to v in order, the first as created and the others as updated, one identity throughout, the last equal to the stored row |
| Runs.EveryRunKeepsFacts | internal/metering/service.go:148-169 | a committed fact never changes and some meter admits all its dimension keys, then and to the end of the run |
| Runs.EveryRunAnswersAgree | internal/metering/service.go:180-201 | all answers ever given for an event name the same fact, the only one it has |
| Runs.RepeatCommitChangesNothing | internal/metering/repository.go:117-123 | in every run a batch of recorded events commits without a change and answers the recorded ids as duplicates |
| Runs.SameBatchCommitsOnce | internal/metering/service.go:172-200 | of concurrent attempts of one batch, interleaved in any way, only the first commit changes the tables, and every later one answers with the same facts |
| MeterStatus.RowHistory | internal/metering/service.go:78-90 | from any step of a run to its end, a meter's row is the last version committed in between, else what it was |
| MeterStatus.MeterStatusAtCommit | internal/metering/service.go:148-172 | a committed fact's meter was active when its call read it, and is active at the commit if and only if no version was committed since or the last one left it active |
| Scenarios.FactOfDisabledMeter | internal/metering/service.go:148-172 | a run in which the meter is disabled between check and commit and the fact is committed |
| Retry.RetryConverges | internal/metering/service.go:118-202 | after a landing and any commits of others, a retry changes nothing, an accepted one answers the landed ids, and each event has exactly the answered fact |
| Retry.TriesChangeAtMostOnce | internal/metering/service.go:118-202 | through any sequence of failing, lost and successful attempts the tables change at most once, at the first landing |
| HttpRetry.OutcomeIsTruthful | internal/transport/http/metering_handler.go:214-225 | whatever a request meets, a success sent or stored lists the facts that own the batch's events on the tables it leaves |
| HttpRetry.SuccessesAgree | internal/transport/http/middleware.go:95-157 | all successes of a run of one batch under one key, executed or replayed, across expiries and commits of others, name the same facts, the only ones of their events |
| HttpRetry.OnePostChangesTheTables | internal/transport/http/middleware.go:95-157 | of all requests of such a run at most one changes the tables |
| HttpRetry.ExpiryReopens | internal/transport/http/middleware.go:107-139 | once the stored answer has expired the next request reaches the handler again |
| ConcurrentPosts.StepKeepsInv | internal/transport/http/middleware.go:95-157 | with posts of one batch interleaved statement by statement, every step keeps each running post recording the batch, and every answer, stored or sent, naming the owners of its events |
| ConcurrentPosts.ConcurrentSuccessesAgree | internal/transport/http/middleware.go:95-157 | in every such run all successes, of the handler or replayed, name the same facts, the only ones of their events |
| ConcurrentPosts.PostsCommitOnce | internal/metering/service.go:172-200 | in every such run only the first commit of a post changes the tables |
| HttpAnswers.ReplyIsRepeatedExactly | internal/transport/http/middleware.go:113-125 | the middleware repeats every failure and every answer of record and adjust; a meter if and only if its version survives a float, a query answer if and only if all its numbers do |
| HttpAnswers.ListedRoutesReplay | config/config.yaml:113-117 | every reply of the routes the shipped configurations list is repeated, meters up to 2^53 versions |
| HttpAnswers.HttpItemsDiffer | internal/transport/http/metering_handler.go:99-104 | different items of a request print differently in window or dimensions over HTTP |
| HttpAnswers.ResultIsReadable | internal/transport/http/metering_handler.go:283-292 | a client reads event, fact and duplicate mark from an entry of a result list |
| HttpAnswers.MeterTextsAreReadable | internal/transport/http/metering_handler.go:278-282 | a client reads a meter's code, name, description and unit |
| HttpAnswers.MeterKindIsReadable | internal/transport/http/metering_handler.go:278-282 | a client reads a meter's aggregation, status and dimension keys, in order |
| HttpAnswers.MeterAuditIsReadable | internal/transport/http/metering_handler.go:278-282 | a client reads a meter's version and who changed it when |
| HttpAnswers.ItemIsReadable | internal/transport/http/metering_handler.go:99-104 | a client reads an item's window, quantity and dimensions, null told from an object |
| HttpAnswers.PageIsReadable | internal/transport/http/metering_handler.go:293-299 | a client reads a page's items in order, its numbers and its total quantity |
| HttpAnswers.FailuresOnTheWire | internal/transport/http/response.go:23-33 | a failed record is answered without a body and with the status and code of its error |
| HttpAnswers.MeterBodyIsInjective | internal/transport/http/metering_handler.go:278-282 | different meters are shown differently |
| HttpAnswers.ItemBodyIsInjective | internal/transport/http/metering_handler.go:293-299 | different items are printed differently |
| Calendar.MonthLength | internal/metering/service.go:328-336 | month starts are 28 to 31 days apart as the Gregorian calendar has it |
| Calendar.NewYear | internal/metering/repository.go:190-191 | the day number of 1 January of any year, by the Gregorian rule of fourth, hundredth and four hundredth years |
| Calendar.FebruaryTakesTheRest | internal/metering/repository.go:190-191 | February has the days that the other months leave between two New Years |
| Calendar.FourCenturies | internal/metering/repository.go:190-191 | 400 years are 146097 days from any month on, and month lengths repeat |
| Calendar.JanuaryOf2026 | internal/metering/repository.go:190-191 | the January 2026 window starts 1767196800 seconds after the epoch |
| Calendar.MonthOf | internal/metering/service.go:329-331 | every day lies in the month found for it |
| Calendar.MonthOfIsUnique | internal/metering/service.go:329-331 | and in no other |
| Calendar.InstantInWindow | internal/metering/repository.go:190-191 | every instant lies between the start of its window and the start of the next |
| Calendar.NextWindowEnd | internal/metering/service.go:328-336 | in a location with any clock rules the reported end is the next start, moved by the slip of the month and by the change of offset |
| Calendar.ReadingsAreResolved | internal/metering/service.go:329-334 | around a clock change, a clock reading that is shown once is resolved to the instant at which it is shown |
| Calendar.NextWindowExact | internal/metering/service.go:328-336 | the reported end is the next start if and only if the window is an hour or the offset changes by just the slip; for changes below a day, if and only if it is an hour, or the offset is the same and it is a day, at or east of Asia/Shanghai, or after a month as long |
| Calendar.SetBackEndsLate | internal/metering/service.go:329-334 | the day or month window in which clocks go back from 11 to 10 hours east ends an hour late |
| Calendar.UtcFebruaryEndsLate | internal/metering/service.go:329-331 | in UTC the February window of every common year ends three days late |
| Calendar.WindowsTileTime | internal/metering/service.go:328-336 | in Asia/Shanghai bucket(t) <= t < nextWindow(bucket(t)), both bounds are bucket starts, and exactly the instants between them share the bucket |
| Calendar.WindowsNest | internal/metering/repository.go:190-198 | hour, day and month buckets nest |
| Calendar.RangeTouchesFewWindows | internal/metering/service.go:209-211 | a range of at most 366 days touches at most 8785 hour, 367 day or 14 month windows |
| Calendar.WindowBoundsAreTight | internal/metering/service.go:209-211 | in every common year an accepted range reaches these numbers |
| Decimal.ParsePrint | internal/metering/repository.go:199 | reading back a printed integer gives the integer |
| Decimal.ParsePrefixDiffers | internal/metering/repository.go:199 | a printed non-zero integer cut short never reads as itself |
| Decimal.Int64Length | internal/metering/repository.go:199 | 64-bit integers print in at most 20 characters and one needs all 20 |
| Dialects.LastAgreesExactly | internal/metering/repository.go:190-201 | MySQL's `last` equals Postgres' if and only if the length limit leaves the newest quantity whole or it is 0 |
| Dialects.LastAgreesFromTwenty | internal/metering/repository.go:190-201 | from 20 characters on they agree on all 64-bit quantities; below, not |
| Dialects.PostgresBucketIsBucket | internal/metering/repository.go:191 | Postgres' bucket expression is the window start, for every instant |
| Dialects.FormatParses | internal/metering/repository.go:197-198 | formatting and casting back truncates the civil time to the granularity |
| Dialects.BucketsAgree | internal/metering/repository.go:190-198 | both bucket expressions denote the same window start, for years with four digits |
| LastAggregate.NewestFirstOrders | internal/metering/repository.go:192 | the ORDER BY of `last` is a descending permutation of the group |
| LastAggregate.LastIsDialectFree | internal/metering/repository.go:190-201 | for every non-empty group both dialects return the quantity of the newest fact |
| Query.KeysAreGroups | internal/metering/repository.go:161-176 | the groups stand in strict (window, dimensions) order, and a group is listed exactly when it has a matching fact |
| Query.QuantityIsConserved | internal/metering/repository.go:166 | for sum and count the total over all points is the sum or count of the matching facts at every granularity |
| Query.OnlyTargetContributes | internal/metering/repository.go:145-146 | only facts of the query's tenant, application and meter contribute, and each contributing fact passes the filter |
| Query.MatchingExactly | internal/metering/repository.go:145-154 | the filter lets through exactly the facts of the tenant, application and meter, from start up to but not at end, that carry every requested dimension with its value |
| Query.AggregateMeans | internal/metering/repository.go:192 | the named aggregate of a group is its sum, its size, its greatest quantity, or that of the fact that is latest by time and then id |
| Query.PointMeans | internal/metering/repository.go:155-161 | each point carries the named aggregate of exactly the facts with its dimensions from its window start up to the next |
| Rollup.SumsRollUp | internal/metering/repository.go:190-201 | a coarse sum or count is the total of the finer points inside |
| Rollup.MaxRollsUp | internal/metering/repository.go:190-201 | a coarse max is the max of the finer points inside |
| Rollup.LastRollsUp | internal/metering/repository.go:190-201 | a coarse last is the last of the latest finer window inside |
| Rollup.PointsRollUp | internal/metering/repository.go:155-161 | for all four aggregations each coarse point is determined by the finer points inside it, which exist exactly where it does |
| QueryService.QueriesRollUp | internal/metering/repository.go:140-188 | on every table state that keeps the invariant, for every range and dimension filter, the rollup law holds |
| QueryService.OffsetIsExact | internal/metering/service.go:225 | the machine offset is (page-1)*pageSize if and only if the product fits 64 bits |
| QueryService.PagesAreTheList | internal/metering/repository.go:175-178 | the LIMIT and OFFSET slices 1 to ceil(total/size) of a list concatenate to it, none of them empty, and all later slices are |
| QueryAnswers.AnswerIsIntendedExactly | internal/metering/service.go:225-229 | with a 64-bit total, page p is answered with its items, total and quantity if and only if the product fits 64 bits or wraps past the end |
| QueryAnswers.OverflowShowsFirstPage | internal/metering/service.go:225 | with 64 items a page, page 2^58 + 1 of every accepted request answers with the items of page 1 |
| QueryAnswers.AnswersAreTheList | internal/metering/service.go:204-230 | the items of the answers to pages 1 to ceil(total/size) concatenate to all items of the request, which stand in strict (window, dimensions) order |
| QueryAnswers.ItemsInOrder | internal/metering/repository.go:176 | items stand by window start, and within a window by the text of their dimensions |
| QueryAnswers.ItemMeans | internal/metering/repository.go:140-188 | an item's quantity is the meter's aggregate of exactly the stored facts of the requested tenant, application and meter, in range and with the requested dimensions, that have the item's dimensions and lie in its window, and its end is the next start in the location of the process |
| QueryAnswers.GrpcShowsItems | internal/transport/grpc/metering_server.go:77-81 | a gRPC point shows its item, with an empty map for absent dimensions |
| QueryAnswers.LaterPagesAreEmpty | internal/metering/service.go:225-229 | within the bound every page is answered, with no item exactly past the last page |
| QueryAnswers.AnswersCarryTheTotal | internal/metering/repository.go:162-187 | each answer's total_quantity is the sum of the quantities of the items on all pages, and its total their number, for every aggregation |
| QueryService.AggregateUsage | internal/metering/repository.go:140-188 | the loop returns the slice of all points with their window ends, their number and their total |
| QueryService.QueryUsage | internal/metering/service.go:204-230 | refuses for the first failing check in the code's order, else answers from one snapshot as specified |
| QueryAnswers.RefusedExactly | internal/metering/service.go:204-224 | which error a query is refused with: that of the first check that fails, in the source's order |
| QueryAnswers.DefaultsAndNames | internal/metering/service.go:281-292 | missing numbers mean page 1 and 20 items, and hour, day and month go by their names |
| QueryService.AnswerIsItsPage | internal/metering/service.go:225-229 | without overflow an accepted request is answered with its page, the number and the total of all points |
| QueryService.AnswersConserveQuantity | internal/metering/repository.go:162-187 | the total quantity of every answer of a sum or count meter is the sum or count of all facts passing its filter |
| QueryService.AnswersDoNotInterfere | internal/metering/service.go:204-230 | an answer is unchanged by facts outside its tenant, application and meter |
| QueryService.UsersSeeTheirTenant | internal/metering/service.go:268-280 | every fact behind a user's answer carries that user's tenant, although the query does not trim its ids |
| QueryService.PointsAreFew | internal/metering/service.go:209-225 | for each dimension value an accepted query has at most 8785, 367 or 14 points |
| QueryAnswers.ItemsDiffer | internal/metering/repository.go:179-186 | different items of a request differ in window or dimensions, null told from empty |
| QueryAnswers.AnswersLookAlikeIff | internal/transport/grpc/metering_server.go:77-81 | two gRPC points of a request have equal window and dimensions if and only if two facts passing its filter, one without dimensions and one with the empty object, lie in one window |
| Scenarios.LookAlikesHappen | internal/metering/service.go:168 | two such events are accepted and recorded, and the gRPC query of their hour answers with look-alike points |
| Idempotency.Manager.Begin | integration/redis_test.go:50-70 | acquires a free key; under a live key it reports conflict exactly for another fingerprint, processing exactly for the same one without a result, else the stored result, and changes no entry |
| Idempotency.Manager.Complete | integration/redis_test.go:63-66 | only the owner of a processing entry stores a response |
| Idempotency.Manager.Fail | internal/transport/http/middleware.go:148-149 | only the owner of a processing entry stores a failure |
| Idempotency.Capture.Write | internal/transport/http/middleware.go:85-93 | the buffer and the client receive the same bytes |
| Idempotency.Execute | internal/transport/http/middleware.go:95-157 | entries, answer and whether the handler ran are as specified, including the refusals of an unreadable body, a failing manager, an unknown state and an undecodable stored response; it runs exactly if the body is readable, the manager answers with a known state and the key is free |
| Idempotency.ReplayRepeatsTheAnswer | internal/transport/http/middleware.go:113-125 | a repeat does not run the handler or change an entry, and repeats the answer up to request id if and only if that had status 200 and only numbers that survive a float, or was an error without body |
| Idempotency.UnifiedAnswersReplay | internal/transport/http/response.go:20-33 | for the answers of OK and Fail a replay repeats the answer if and only if the body's numbers survive, as all up to 2^53 do |
| Json.ReprintIsStable | internal/transport/http/middleware.go:142-146 | a number printed after one passage through a float is printed the same after another |
| Json.NearestIsNearest | internal/transport/http/middleware.go:142-146 | no float is nearer to a number than the one it is read as |
| Json.SurvivalBound | internal/transport/http/middleware.go:142-146 | all integers up to a bound are printed unchanged if and only if the bound is at most 2^53 |
| Json.UnchangedIffSurvives | internal/transport/http/middleware.go:142-146 | a body decoded into any is unchanged if and only if each of its numbers is printed unchanged |
| Scenarios.LargeTotalIsReplayedWrong | internal/transport/http/middleware.go:113-122 | events of total quantity 2^53 + 1 are recorded and queried; if the query route is made idempotent, the replay of that answer reports 2^53 |
| Fingerprint.HashedBytes | internal/transport/http/middleware.go:165-169 | the hashed bytes are subject, NUL, POST, NUL, route, NUL, body |
| Fingerprint.SameSubjectIsInjective | internal/transport/http/middleware.go:159-171 | requests of one subject with the same hashed bytes have the same route and body |
| Fingerprint.PreimageIsInjective | internal/transport/http/middleware.go:159-171 | requests of subjects without NUL with the same hashed bytes have the same subject, route and body |
| Fingerprint.CollidesExactly | internal/transport/http/middleware.go:98-103 | another POST request to one of the routes hashes the same bytes if and only if body or subject spells out the NUL-framed method and some route where it can be taken for the real one |
| Fingerprint.SubjectsCollide | internal/transport/http/middleware.go:165-169 | two record requests of different subjects with the same hashed bytes |
| IdempotentRuns.EveryRunStartsOncePerLiveKey | internal/transport/http/middleware.go:95-157 | in every interleaving two handler runs under one key have an expiry of that key between them |
| IdempotentRuns.EveryRunAnswersByTheLog | internal/transport/http/middleware.go:112-136 | in every run a request under a held key is told 409/30009 if and only if its fingerprint differs from the start's, 409/30010 if and only if it is the same and no result was saved, and gets a replay if and only if one was |
| IdempotentRuns.EveryRunStartsFreeKeys | internal/transport/http/middleware.go:107-139 | in every run a request whose key no start holds reaches the handler |
| ScenarioPosts.LifeOfAKey | integration/redis_test.go:50-70 | a run with a start, both refusals, a return, a replay, an expiry and a new start |
| ScenarioPosts.PostedTwice | internal/transport/http/middleware.go:95-157 | a run in which a batch is posted, recorded and committed, and its second post is answered with the same results and the new request id |
| IdempotentRuns.EveryRunReplaysAReturn | internal/transport/http/middleware.go:113-125 | in every interleaving a replay answers an earlier return with its key and fingerprint, since which the key has not expired; a success is sent with the request id replaced and the body as decoded into any |

## Left out

- Authentication and remote authorization (JWT, PSK, JWKS, the access client): they answer over the network; the principal and the verifier's answer are inputs.
- Outbox dispatcher, retention cleaner and event bus: their logic is in a library outside the repository.
- Redis locks, rate limiter, circuit breaker and cron runner: their state is kept by libraries outside the repository.
- Retry backoff, configuration, migrations, logging, metrics and health checks: they touch neither the tables nor the stored answers.
- ListMeters and the field-by-field gRPC and HTTP conversions: they copy columns and keep no invariant; the two conversions that matter, of a fact and of a result list, are modelled.
- JSON syntax and protobuf encodings: JSON values are trees, dimensions are null or a map, key lists are sequences, envelopes are datatypes; errors of decoding stored dimensions or key lists are not modelled.
- JSON numbers are integers, as the service's bodies have no others, and none reaches 10^21, from which floats are printed with an exponent.
- Outbox row ids, subjects and delivery columns: a row holds its decoded envelope.
- Identifiers are numbers, so trimming an id and the blank id of UpdateMeter are not modelled; string order of ids in `last` is their numeric order.
- Time zone history: Asia/Shanghai is a fixed +8 hours; the location of scanned times is any function from instants to offsets.
- Zero timestamps are absent values; instants before year 1 are not told apart from them in the original.
- SQL collation, timestamp precision, numeric overflow of sums and the 64-bit range of quantities and versions: exact strings, integers and unbounded sums.
- Deadlock freedom and liveness: the database decides these; blocked statements are steps that are not enabled, and any statement error, including serialization errors, is an abort.
- The value that CreateMeter and UpdateMeter return beside an error is dropped, since callers ignore it.
- Requests the middleware lets through (no key, disabled manager, other methods or paths) run the handler directly and are not part of its model.
- Text.CodeIsNormal: does not model lower-casing outside ASCII; the patterns of codes and keys admit no other letters, but a usage event with such a letter in its meter code is looked up here by a code the source would have lowered.
- Service.Service.Within: statement errors other than a clash are not modelled in the sequential class; in the interleaved system a call may abort before any of its steps.
- QueryService.QueryUsage: the summary and the page are read from one snapshot, because the source reads them in two statements without a transaction and promises nothing between them.
- Dialects.BucketsAgree: holds for years 0 to 9999, the range of MySQL's DATETIME; the MySQL connection stores times in Asia/Shanghai civil time (internal/database/database.go:43).
- Calendar.NextWindowExact: covers offsets from 16 hours west to 32 hours east of UTC; those of the time zone database lie within 16 hours of UTC.
- HttpRetry.SuccessesAgree: requests of the one client come one after the other; ConcurrentPosts.ConcurrentSuccessesAgree is the theorem for concurrent ones.
- HttpRetry.OnePostChangesTheTables: the same; ConcurrentPosts.PostsCommitOnce is the theorem for concurrent posts.
