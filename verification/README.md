# Jira connector: a verified model of the sync engine

The connector copies the issues of a Jira project into the `raw` schema of a PostgreSQL database. A sync
job searches the project page by page. The issues of a page are fetched by a pool of workers and committed
in one transaction; a registry of jobs lets clients poll how far a job has come. This project models that
engine in Dafny and proves what it guarantees for every server, every schedule and every failure.

| files | what they model |
|---|---|
| `Jira`, `Mapper`, `Authors`, `AuthorHash`, `Int64` | Jira's records, the rows they map to, the authors they mention, and the 64-bit hash that identifies an author |
| `RawStore`, `Postgres` | the four tables as a value with the meaning of each statement; the repository and its transactions as classes |
| `PageEffect`, `SyncLaws` | what committing issues does to the tables; replay, order and interleaving |
| `PoolProtocol`, `PoolInvariant`, `PoolRuns`, `PoolCounters`, `PageFetch`, `SubmitRace` | the worker pool and the page fetch as a protocol of producer, workers, watcher and collector over two channels; `Submit` racing `Stop` |
| `Registry`, `Manager`, `SyncSystem`, `StatusHistory` | the job registry as a value and as objects; the system of its callers, owners and clock; what pollers see |
| `References` | when the database accepts the rows of an issue |
| `RunSpec`, `SyncRun`, `RunLaws`, `SyncService` | the run, from one insert up to a whole job, and what a run amounts to |
| `Backoff` | the retry loop of the Jira client |

Imperative code of the original is imperative here and proved against functions on values; the theorems are
lemmas about those functions. `SyncRun.RunSync` gives an account of itself, the predicate
`RunSpec.Accounts`, and the theorems in `RunLaws` and `SyncService` are drawn from it.

Check the project with `dafny verify dfyconfig.toml`.

## What is assumed

- Jira is an arbitrary function from the number of the search and its offset, and from an issue key, to an
  answer or an error. Theorems that need more say so: `StableList`, `FullPages`, `Steady`, `Snapshot`.
- Every channel operation, select branch, load or store of a flag, and critical section is one atomic step.
  `SetTotal` and `IncrProcessed` look the job up and store in one step; in between, a job that runs cannot go.
- Any statement, begin or commit may fail, which counts as a fault of the database, and nothing else raises that
  count. A commit that fails has no effect; a transaction cannot begin on a
  done context. As PostgreSQL does, the model refuses every statement of a transaction after one has failed
  and rolls back at its commit, which the driver reports as an error. Page transactions are serialised. So a
  status change that fails to insert, which the code only logs, costs its page the commit, and a page that
  commits has all of them.
- Uuids are fresh and the clock of the registry never goes back. The deadline of a job is a budget of
  searches. The context may also be done at any earlier moment, if `mayCancel` says so.
- `time.Parse` and `strconv.ParseInt` are arbitrary partial functions; the JSON of an issue is decoded.
- A fetch that blocks for want of a worker (`PoolRuns.DeadlockFreeIff`) is released when its context is done, at
  the latest by the job's deadline. Runs may have any number of workers; without any, nothing can be fetched.

## Where the code and its promises part

- `SyncProject` answers "running" or "already_running"; the end-to-end test at
  `tests/e2e/connector_test.go:136` expects "completed". The model follows the code.
- Some of the properties one would expect hold only under a condition, and the condition is proved exact:
  - the database accepts an issue's rows if and only if its project is stored, its numbers fit their columns, and
    its author references are named or an author with the identifier 0 is there to stand in
    (`References.AcceptedIff`; `References.UnnamedCreatorRefused` is an issue it refuses);
  - over a server that answers by offset with bounded totals, runs end by themselves if and only if none is sent
    an empty page short of the total (`RunLaws.PagesBoundedIff`); `RunLaws.NoProgressForever` and
    `RunLaws.GrowingTotalForever` are servers that are searched for ever;
  - retries without a Retry-After keep their bound if and only if the doubled delays pass the maximum before they
    overflow (`Backoff.BoundHoldsIff`);
  - after a Retry-After the retries stay bounded if and only if the row of doubled delays it starts climbs over the
    maximum (`Backoff.RetryAfterBoundedIff`): with a maximum below 2^62 ns that is every value but those that come
    to 0 or to the negation of a power of two (`Backoff.ClimbsIff`), among granted values every one but 0
    (`Backoff.GrantedRetryAfterBoundedIff`);
  - a page fetch is free of deadlock, and complete without a cancellation, under the conditions of
    `PoolRuns.DeadlockFreeIff` and `PageFetch.PageCompleteIff`.
- The display name kept for an author depends on the order of commits when one hash or one name comes with two
  display names (`SyncLaws.OrderIrrelevantIff`).

## Model

| member | source | states |
|---|---|---|
| AuthorHash.HashID | internal/mapper/jira_to_raw.go:103-119 | the loop computes the masked running hash, each multiplication, addition and negation wrapping at 64 bits |
| AuthorHash.RunningRange | internal/mapper/jira_to_raw.go:108-114 | after every round the hash is non-negative or exactly -2^63, which negation leaves as it is |
| AuthorHash.OneMoreCodePoint | internal/mapper/jira_to_raw.go:108-114 | for every string, also after overflows, one more code point makes the hash 31 times the old one plus the code point, or its negation, modulo 2^64, and non-negative or -2^63 |
| AuthorHash.FoldedIsUnique | internal/mapper/jira_to_raw.go:108-114 | that leaves exactly one value |
| AuthorHash.IdOf | internal/mapper/jira_to_raw.go:116-118 | every identifier is the hash modulo 2^31 and fits the INT column: it lies in [0, 2^31) |
| AuthorHash.NeverWrapsIffPolyFits | internal/mapper/jira_to_raw.go:108-114 | no round overflows if and only if the base-31 polynomial of the code points is below 2^63, and then the hash is that polynomial |
| AuthorHash.ShortNamesAreExact | internal/mapper/jira_to_raw.go:103-119 | a name of at most nine code points never overflows and its identifier is the polynomial modulo 2^31 |
| AuthorHash.TenCodePointsCanWrap | internal/mapper/jira_to_raw.go:103-119 | nine is the largest such length: some name of ten code points overflows and gets another identifier |
| AuthorHash.NamesCollide | internal/mapper/jira_to_raw.go:103-119 | two distinct names can have one identifier |
| Mapper.RowTellsIssue | internal/mapper/jira_to_raw.go:40-72 | mapping fails only for an unparseable id; each text and number can be read back from its own column, which is NULL exactly for the empty one; a NULL assignee or time has exactly the stated causes |
| Mapper.MapChangelogToRaw | internal/mapper/jira_to_raw.go:74-101 | the nested loops yield the changes of the specification `Changes` |
| Mapper.ChangesExact | internal/mapper/jira_to_raw.go:81-98 | the changes are exactly the status items of histories with a readable time, each once, in changelog order, with its own author, time and statuses |
| Authors.Add | internal/service/sync/sync.go:200-205 | one call of the closure remembers a name that is new and not empty, and no other |
| Authors.CollectAuthors | internal/service/sync/sync.go:195-217 | the authors collected are the first mentions among creator, assignee and history authors |
| Authors.FirstMentionsExact | internal/service/sync/sync.go:196-205 | first mentions are each distinct non-empty name once, in order, with the display name it first came with |
| Authors.NamedExact | internal/service/sync/sync.go:195-217 | a name is collected if and only if it is mentioned and not empty |
| Authors.ReferencesClosed | internal/service/sync/sync.go:488-515 | with a named creator and named authors of recorded status changes, every author the row and the changes refer to is inserted before them |
| Authors.ReferencesClosedIff | internal/service/sync/sync.go:488-515 | whatever authors are already known, every reference is known or inserted if and only if the references are named or an author with the identifier 0, known or inserted, stands in for the empty name |
| References.AcceptedIff | internal/database/migrations/000001_init_raw_data_scheme.up.sql:3-36 | the exact condition, over any tables, for no foreign key or column to refuse an issue's rows: project stored, numbers within 32 bits, references named or an author with the identifier 0 stored or inserted |
| References.UnnamedCreatorRefused | internal/service/sync/sync.go:497-505 | an issue without a creator's name that a consistent database refuses, and that the same database with an author 0 accepts |
| Postgres.PostgresRepository.NewTx | internal/repository/postgres/postgres.go:62-79 | a transaction sees the committed tables, and fails to begin only on a done context, inside another or by a fault |
| Postgres.PostgresRepository.Commit | internal/repository/postgres/postgres.go:81-93 | success makes the tables exactly the transaction's; failure changes nothing and takes a failed statement, a closed transaction or a fault |
| Postgres.PostgresRepository.Rollback | internal/repository/postgres/postgres.go:95-107 | the transaction can commit nothing any more, and the tables are untouched |
| Postgres.PostgresRepository.InsertProject | internal/repository/postgres/postgres.go:137-151 | success is the first-writer-wins insert on what the querier sees; failure changes nothing, dooms an open transaction, and takes a refused row, a doomed transaction or a fault |
| Postgres.PostgresRepository.InsertAuthor | internal/repository/postgres/postgres.go:153-167 | the same for authors |
| Postgres.PostgresRepository.InsertIssue | internal/repository/postgres/postgres.go:169-195 | success is the upsert of a row whose project, author and assignee exist |
| Postgres.PostgresRepository.InsertStatusChange | internal/repository/postgres/postgres.go:197-213 | success adds one row whose issue and author exist |
| Postgres.PostgresRepository.DeleteStatusChangesByIssue | internal/repository/postgres/postgres.go:215-225 | success removes the status changes of one issue and nothing else |
| PageEffect.PagesAreOneBatch | internal/service/sync/sync.go:310-354 | cutting issues into page transactions does not change their effect |
| PageEffect.AddAuthorsExact | internal/repository/postgres/queries/insert_author.sql:1-3 | names already present stay, every mentioned id is present, and a new id carries the first name given for it |
| PageEffect.ApplyAllSettles | internal/service/sync/sync.go:483-528 | a batch leaves each of its issues with exactly its row, its changes and its authors |
| PageEffect.ApplyAllFrame | internal/service/sync/sync.go:483-528 | issues no bundle is about, all projects and all known authors stay as they are, and no author appears from nowhere |
| PageEffect.PagesKeepConsistent | internal/database/migrations/000001_init_raw_data_scheme.up.sql:3-36 | pages whose references resolve leave no dangling foreign key |
| SyncLaws.ReplaySafeIffAgreeing | internal/service/sync/sync.go:507-525 | replaying a batch in any order, with any repetitions, changes nothing if and only if the batch holds one content per issue |
| SyncLaws.ReSyncIdempotent | internal/service/sync/sync.go:483-528 | the same issues again, permuted and cut into any pages, leave all four tables as they are |
| SyncLaws.SameUpToNames | internal/service/sync/sync.go:483-528 | the order of issues matters to no table but the names of authors |
| SyncLaws.OrderIrrelevantIff | internal/service/sync/sync.go:483-528 | the order of issues is irrelevant to all four tables if and only if bundles agree on contents and on the names of new author ids |
| SyncLaws.NamesDependOnOrder | internal/repository/postgres/queries/insert_author.sql:1-3 | two issues whose orders leave different names for one author id |
| SyncLaws.InterleavingKeepsBundles | internal/service/sync/sync.go:452-464 | any interleaving of jobs' page transactions commits exactly the issues of all the jobs |
| SyncLaws.ScheduleIndependent | internal/service/sync/sync.go:446-481 | any interleaving, with any delivery order inside a page, leaves the issues, changes and author ids that running the jobs one after the other leaves |
| PoolInvariant.InvStep | internal/workerpool/workerpool.go:107-223 | every step of every goroutine keeps the invariant of control, crew, conservation, truth of results and counters |
| PoolRuns.PoolConservation | internal/workerpool/workerpool.go:134-223 | in every reachable state each submitted task is in exactly one place, nothing is dropped without a cancellation, and the counters count exactly the tasks past Process |
| PoolCounters.CountersExact | internal/workerpool/workerpool.go:185-199 | in every reachable state Failed counts exactly the errors among the results past Process, wherever they are, and Processed exactly the others |
| PoolRuns.MeasureStep | internal/workerpool/workerpool.go:107-223 | every step lowers a weighted measure of unsubmitted, queued, held and undelivered work |
| PoolRuns.EveryRun | internal/service/sync/sync.go:375-443 | every run keeps the invariant and is no longer than seven steps a task, one a worker, and nine |
| PoolRuns.NoDeadlock | internal/service/sync/sync.go:380-442 | until the fetch returns some goroutine can step, on the cancellation and error paths too |
| PoolRuns.NoWorkersDeadlock | internal/service/sync/sync.go:389-405 | with no worker and a page that overfills the queue, the fetch blocks for good |
| PoolRuns.DeadlockFreeIff | internal/service/sync/sync.go:375-443 | the exact condition: no reachable deadlock if and only if there is a worker or the queue takes the whole page |
| PageFetch.ItemsMatch | internal/service/sync/sync.go:409-435 | truthful results for all tasks carry exactly the items of the successful fetches, for some tasks some of them |
| PageFetch.CollectedFromPage | internal/service/sync/sync.go:407-435 | whatever happens, only issues of the page are collected, and none twice |
| PageFetch.PageComplete | internal/service/sync/sync.go:375-443 | without a cancellation the fetch returns no error and a permutation of the page's successful fetches, for any number of workers from one, any queue size from zero and any schedule |
| PageFetch.PageCompleteIff | internal/service/sync/sync.go:375-443 | the exact condition: without a cancellation every fetch that returns is complete if and only if there is a worker or the page is empty |
| PageFetch.NothingOutlives | internal/workerpool/workerpool.go:107-129 | when a fetch returns, cancelled or not, every worker has returned and both channels are closed |
| PageFetch.CollectorErrorLeavesWorker | internal/service/sync/sync.go:423-429 | after a result of an unexpected type a worker can stay blocked in its send when the fetch has returned |
| PageFetch.PartialPage | internal/service/sync/sync.go:407-442 | after a cancellation a fetch can return part of the page with no error |
| PageFetch.ChannelsSafe | internal/workerpool/workerpool.go:120-163 | nothing is closed twice or sent to when closed; results close only after every worker has gone, tasks only after the last Submit, so the recovered panic cannot happen |
| PageFetch.FetchPageIssues | internal/service/sync/sync.go:375-443 | run under an arbitrary scheduler it returns, with the first error of the group if either goroutine ended in one and else with what was collected; complete without a cancellation, part of the page otherwise |
| PageFetch.SuccessesExact | internal/service/sync/sync.go:409-432 | the successful fetches are exactly the items of the tasks that succeed, each once, in the order of the tasks |
| SubmitRace.SubmitOrNothing | internal/workerpool/workerpool.go:134-163 | with any callers racing any Stop calls: nil means enqueued exactly once, an error means nothing was enqueued, the channel closes once, and a Submit after Stop is refused |
| SubmitRace.RacingSubmitCanPanic | internal/workerpool/workerpool.go:139-143 | outside the page fetch's order of calls the recovered panic does happen, and then nothing was enqueued |
| Registry.IncrByAdds | internal/service/sync/manager.go:143-151 | n increments add n modulo 2^64 to one job's counter and touch nothing else |
| Registry.StartExact | internal/service/sync/manager.go:91-113 | starting drops exactly the jobs that finished ten minutes ago or earlier and leaves the others; a new job runs, has counted nothing, and is the key's |
| Registry.SetTotalExact | internal/service/sync/manager.go:131-139 | the total is stored modulo 2^64, and nothing else changes |
| Manager.Manager.EvictExpiredLocked | internal/service/sync/manager.go:188-201 | exactly the finished jobs whose TTL has elapsed are removed |
| Manager.Manager.Start | internal/service/sync/manager.go:91-113 | evicts, then returns the running job of the key or registers a new one under both maps |
| Manager.Manager.Status | internal/service/sync/manager.go:117-127 | a snapshot of the job, or unknown |
| Manager.Manager.SetTotal | internal/service/sync/manager.go:131-139 | sets one job's total, a negative one wrapping, and ignores an unknown id |
| Manager.Manager.IncrProcessed | internal/service/sync/manager.go:143-151 | adds one to one job's counter, modulo 2^64 |
| Manager.Manager.Complete | internal/service/sync/manager.go:154-167 | records the state and time and frees the job's key |
| Manager.Manager.Fail | internal/service/sync/manager.go:170-184 | records the state, message and time and frees the job's key |
| SyncSystem.RegistryInvariant | internal/service/sync/manager.go:91-113 | in every reachable state byKey lists exactly the running jobs under their keys, no key has two, each running job has one owner still to end it, and started = completed + failed + active |
| SyncSystem.SecondTerminalCallBreaks | internal/service/sync/manager.go:154-184 | a second terminal call on an old job lets a project run twice at once: the single owner is needed |
| StatusHistory.HistoryShaped | internal/service/sync/manager.go:117-127 | the answers to any polls are Unknown* Running* Terminal* Unknown*, with one fixed terminal record and Processed never decreasing |
| StatusHistory.KnownForTTL | internal/service/sync/manager.go:188-201 | a job seen running stays known until ten minutes have passed |
| StatusHistory.OutcomeMissedAtTTL | internal/service/sync/manager.go:188-201 | the bound is exact: a client away for just the TTL can miss the outcome |
| StatusHistory.WaitForSync | cmd/internal/app/app.go:103-133 | polling less than the TTL apart, the CLI ends with the registry's own outcome or its own cancellation, and never with "job disappeared" |
| SyncRun.InsertAuthors | internal/service/sync/sync.go:488-495 | in a healthy transaction exactly these authors are added: stored names stay, a new one is the display name of the first author with its identifier; it fails only in a doomed transaction or by a fault |
| SyncRun.InsertChanges | internal/service/sync/sync.go:514-525 | exactly the given changes are recorded, though a failed insert is passed over; without a fault and with every reference resolved none fails |
| SyncRun.InsertProcessedIssue | internal/service/sync/sync.go:483-528 | success in a healthy transaction is the issue's whole effect; an issue whose id parses and whose rows are allowed succeeds unless the database fails |
| SyncRun.InsertBatch | internal/service/sync/sync.go:452-464 | the operation inserts the batch in order and counts each issue inside the open transaction; an acceptable batch succeeds unless the database fails |
| SyncRun.CommitPage | internal/service/sync/sync.go:446-481 | all or nothing: success is the effect of the whole batch, failure leaves the tables alone, and the count stands either way; it fails only on a done context, by a fault, or for an id that does not parse or a refused row |
| SyncRun.EndTransaction | internal/repository/postgres/postgres.go:118-125 | a failed operation is rolled back with its own error; otherwise the transaction commits, and fails to only if it was doomed or by a fault |
| SyncRun.ProcessPage | internal/service/sync/sync.go:358-371 | success commits exactly the page's successful fetches; a partial fetch is never committed; failure has one of the causes of CommitPage or the lack of a worker |
| SyncRun.SyncPage | internal/service/sync/sync.go:328-344 | one iteration: the total is announced by the first answer only, an empty page commits nothing |
| SyncRun.Iterate | internal/service/sync/sync.go:321-351 | one iteration extends the account of the run by a page, or ends it |
| SyncRun.RunSync | internal/service/sync/sync.go:310-354 | whatever the server, the database and the moment of a cancellation do, the run accounts for the tables and the registry, and its error tells the cause |
| RunSpec.UnderwayMore | internal/service/sync/sync.go:346-350 | one more page: startAt is the sum of the page lengths, and the run goes on or is done as the last total says |
| RunSpec.FetchesExact | internal/service/sync/sync.go:166-193 | a page's fetch yields for each key that can be fetched exactly one item, in order, carrying that key's issue and fields whole, the project, and the authors the issue mentions |
| RunSpec.AddingIntroduces | internal/mapper/jira_to_raw.go:33-38 | adding authors keeps stored names and gives a new identifier the display name of the first author that has it |
| RunSpec.PageAdded | internal/service/sync/sync.go:321-351 | a committed page extends the account of the run, in tables and registry |
| RunSpec.FailedRun | internal/service/sync/sync.go:328-343 | a failing page leaves the account of the pages before it, plus the issues it had counted |
| RunLaws.CompletedSawTotal | internal/service/sync/sync.go:346-348 | any server: a completed run has listed at least the last reported total |
| RunLaws.CompletedListsAll | internal/service/sync/sync.go:318-353 | over a stable list a completed run has listed exactly the list, in order, in at most one search an issue |
| RunLaws.FullPagesCount | internal/service/sync/sync.go:318-353 | a list of n issues in full pages of 50 takes max(1, n / 50 rounded up) searches |
| RunLaws.CompletedHasNoEmptyPage | internal/service/sync/sync.go:346-350 | over a server that answers by offset, a run that completes met no empty page before its last |
| RunLaws.PagesBoundedIff | internal/service/sync/sync.go:346-350 | the exact condition, for every server that answers by offset with totals under some number: the pages of runs are bounded if and only if no run is sent an empty page short of its total |
| RunLaws.NoProgressForever | internal/service/sync/sync.go:346-350 | a server of empty pages with a total of one, against which a run goes on for any number of pages |
| RunLaws.GrowingTotalForever | internal/service/sync/sync.go:346-350 | a server without empty pages whose total grows, against which a run goes on for any number of pages |
| RunLaws.EndToEnd | internal/service/sync/sync.go:310-354 | a run over a snapshot that ends Completed leaves, for every key whose fetch gives an issue, that issue's mapped row and exactly its mapped changes; everything about other issues is as it was, a new author has a name that one of the issues gives first, and no reference dangles |
| RunLaws.EndToEndAmongOthers | internal/service/sync/sync.go:310-354 | the same for a run whose page commits come among those of other jobs on other issues, in any interleaving |
| RunLaws.PrefixDurable | internal/service/sync/sync.go:321-351 | a run that ends Failed leaves the tables reflecting in that way exactly a prefix of the list, the pages before the failing one |
| RunLaws.ReSyncChangesNothing | internal/service/sync/sync.go:310-354 | a second completed run over the same contents, listed in any order and pages, leaves all four tables as they are |
| RunLaws.CountedAtMostTotal | internal/service/sync/sync.go:333-337 | a run over a stable list never counts more issues than the total it announced |
| RunLaws.ProgressAccounting | internal/service/sync/sync.go:452-464 | Processed never passes Total; on Completed it is the committed issues, Total less the failed fetches; on Failed it exceeds the committed ones by at most the failing page's batch |
| RunLaws.RunCompletes | internal/service/sync/sync.go:310-354 | over a snapshot whose issues can all be stored, with a worker and enough searches before the deadline, a run that meets no cancellation and no fault ends Completed |
| SyncService.EnsureProject | internal/service/sync/sync.go:530-551 | the id is that of the first listed project with the key; a stored title stays, a new row carries the project's name; an absent key is an error that writes nothing, and an insert fails only by a fault or for an id beyond 32 bits |
| SyncService.SyncProject | internal/service/sync/sync.go:221-305 | a job is started and counted if and only if the project has none running, and its project row exists by then |
| SyncService.StartJob | internal/service/sync/sync.go:235-254 | the job is registered, and counted if and only if it is new |
| SyncService.ReportEnd | internal/service/sync/sync.go:276-297 | one terminal call that tells how the run ended, and one count of the finish |
| SyncService.OwnJob | internal/service/sync/sync.go:259-298 | the goroutine makes one run and one terminal call, Fail with the text of the run's error or Complete, and one count of the finish |
| SyncService.JobTables | internal/service/sync/sync.go:272-297 | when a job over a snapshot is over the tables reflect exactly what it listed: all of it if Completed, a prefix if Failed |
| SyncService.JobStatus | internal/service/sync/sync.go:272-297 | when a job is over its status tells how and, if it failed, with what message; the project is free again, and a completed job shows the list's length and has processed every fetchable issue |
| SyncService.JobCompletes | internal/service/sync/sync.go:272-297 | a job over a snapshot ends Completed under the conditions of RunCompletes |
| SyncService.OwnerIsAClient | internal/service/sync/sync.go:259-298 | the goroutine's effect on the registry is a run of the system whose invariant is proved, with one terminal call |
| SyncService.JobMetrics.SyncJobStarted | internal/metrics/metrics.go:102-110 | a start raises started and active by one |
| SyncService.JobMetrics.SyncJobFinished | internal/metrics/metrics.go:112-125 | a finish lowers active and raises completed or failed by one |
| Backoff.Do | internal/client/jira/jira.go:412-463 | the loop makes the waits, requests and end of the specification `Attempts`, and counts one retry a wait |
| Backoff.FinalReply | internal/client/jira/jira.go:475-485 | a reply 200 is returned after one request, and any status but 200, 429 and 503 is an error after one request |
| Backoff.ThrottlingReply | internal/client/jira/jira.go:513-544 | a 429 or 503 waits its Retry-After in seconds of 10^9 ns, or else the current delay: above the maximum it is given up, interrupted it ends the call, and otherwise the next attempt has twice that delay |
| Backoff.NetworkFailure | internal/client/jira/jira.go:488-511 | a network error is retried after the current delay unless the context is done, the delay is above the maximum or the wait is interrupted |
| Backoff.NothingSent | internal/client/jira/jira.go:422-430 | an attempt that the limiter stops or whose request cannot be built sends nothing and ends the call |
| Backoff.WaitsBounded | internal/client/jira/jira.go:488-544 | in any run no wait is above the maximum, and requests are retries plus one unless the last iteration never reaches the HTTP call |
| Backoff.BackoffBound | internal/client/jira/jira.go:488-544 | without a parseable Retry-After the k-th wait is min 2^(k-1), there are at most log2(max / min) + 1 retries, the waits add up to less than 2 max, and the call ends by itself |
| Backoff.BoundHoldsIff | internal/client/jira/jira.go:510-543 | the exact condition on the settings: the bound holds for all such runs if and only if the first delay of the doubling row that an int64 cannot double is above the maximum |
| Backoff.SteadyRetryAfter | internal/client/jira/jira.go:520-541 | a server that always asks for one wait is retried for ever if and only if that wait, wrapped as the client computes it, is at most the maximum |
| Backoff.ZeroRetryAfterLasts | internal/client/jira/jira.go:520-526 | after one Retry-After of zero every later network error is retried at once, without end |
| Backoff.HugeRetryAfterRetries | internal/client/jira/jira.go:520-526 | every Retry-After between 2^63 and 2^64 ns wraps negative and is retried at once instead of given up |
| Backoff.RetriesBoundedIff | internal/client/jira/jira.go:488-543 | from any int64 delay, retries without a further Retry-After are bounded if and only if one of the 64 wrapped doublings is above the maximum |
| Backoff.RetryAfterBoundedIff | internal/client/jira/jira.go:520-541 | the exact condition on a Retry-After of any value: whatever follows without another one, retries are bounded if and only if its row of doubled delays climbs over the maximum |
| Backoff.ClimbsIff | internal/client/jira/jira.go:488-543 | with a maximum below 2^62 ns a row climbs if and only if it starts neither at 0 nor at the negation of a power of two |
| Backoff.GrantedRetryAfterBoundedIff | internal/client/jira/jira.go:520-541 | a Retry-After that is granted as it stands keeps retries bounded if and only if it is not 0 |

## Left out

- HTTP, URL building, JSON decoding, error texts and the rate limiter: library behaviour; the Jira client is a function of answers, its retry loop a script of attempts.
- Time and number parsing: arbitrary partial functions.
- PostgreSQL's internals, the connection, the migration runner, the analytics schema and the seed data; concurrent page transactions are serialised, so deadlocks between them are not modelled.
- The gRPC handler, generated code, server and CLI wiring, configuration loading and its defaults, logging, profiling and the Prometheus plumbing.
- The Go memory model and scheduling fairness: steps are atomic, and termination is by a measure that every step lowers.
- Panics inside an operation or a processor, and crashes of the process.
- The metrics for issues processed and for durations: no property depends on them.
- SyncRun.RunSync: other jobs' updates of the registry and the tables do not interleave with it there; `SyncSystem` has the first interleave, `SyncLaws.ScheduleIndependent` and `RunLaws.EndToEndAmongOthers` the second.
- Mapper.RowTellsIssue: the mapper decodes the issue's JSON once more and fails if that fails; the model has it decoded, as the fetcher has already done from the same bytes.
- PoolProtocol.Config: the type check of a task's payload is not modelled, because every task of the page fetch carries the right one; a result of an unexpected type is modelled.
- SyncRun.CommitPage: `WithTransaction` (`internal/repository/postgres/postgres.go:109-126`) takes its operation as a closure; here it is written out around the batch.
- SyncService.SyncProject: the check that the repository is the PostgreSQL one is not modelled, because the model has no other.
- RawStore.Tables: `raw.status_changes` has no key and is kept as the multiset of its rows, grouped by issue.
