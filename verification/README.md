# Mempher, modelled and proved

Mempher is a memory layer for agents. It records episodes in an append-only log per scope
(L0), derives encodings and facts from that log through a queue of jobs drained by workers,
and answers recall requests by fusing the rankings of several search channels. This project
states in Dafny what the repository's store, queue, workers and pure algorithms do, and
proves the properties its documentation promises of them.

`dafny verify dfyconfig.toml` checks everything.

## How the model is laid out

| file | what it holds |
|---|---|
| `Model.dfy` | the rows of the store and the commands that change them |
| `Sets.dfy` | how large sets are |
| `Tables.dfy` | the tables as one value; every statement or transaction as a function from tables to tables; runs of them |
| `Store.dfy` | the store as an object with one field per table, its methods proved against those functions |
| `FactAlgebra.dfy` | validity windows, deduplication, retraction, the key that keeps windows apart |
| `Invariants.dfy` | what every operation keeps, and so what holds in every reachable state |
| `Histories.dfy` | whole runs: immutability, erasure, sequence numbers, replay, the past |
| `QueueHistories.dfy` | whole runs of the queue: termination, attempts, exclusion, order of claims |
| `Effects.dfy` | what single operations achieve beyond what they keep |
| `Beginnings.dfy` | short runs from an empty store, with which the runs that show a failure begin |
| `Restating.dfy` | which assertions of an extraction have a row, and what refreshed rows say |
| `Births.dfy` | what new facts say and what becomes of them, when an extraction is refused, what has been read |
| `Transactions.dfy` | an extraction and an erasure in two steps, with any run in between |
| `Backfill.dfy` | the backfill walk over a store object, and paging it |
| `Pending.dfy` | which episodes are listed as unread, for how long, and what coverage means in the tables |
| `LiveBackfill.dfy` | the walk with anything happening between its statements |
| `Workers.dfy` | any number of worker processes interleaved with everything else |
| `Staleness.dfy` | exactly when encodings catch up with the log after they were dropped |
| `Restoring.dfy` | a backfill on the live system bringing the encodings back |
| `Drain.dfy` | one worker draining one batch alone |
| `Alone.dfy` | the interleaved worker, left alone, does what that loop does |
| `Ingest.dfy` | batches of append requests, splitting them, importing a history |
| `Fusion.dfy`, `Recall.dfy` | reciprocal rank fusion, channel resolution, the recall cut |
| `Weights.dfy` | what the weights of the channels do to a fused list |
| `StrictSchema.dfy` | the strict-mode rewrite of a response schema, with a meaning for schemas |
| `Cue.dfy` | the cue known facts are ranked against, over bytes and UTF-8 |
| `Digest.dfy`, `Order.dfy` | the extractor's digest input and canonical predicate set |
| `Metrics.dfy` | grading one recollection |
| `Migration.dfy` | migrations under one lock |

A `Db` value is the whole store. `Tables.Op` is one operation by anybody, with arbitrary
arguments; `Tables.Run` folds a list of them, so a lemma about `Run` holds of every
interleaving of any number of clients and workers. Ids come from one counter, so a minted id
was never used before and a larger one is newer. Instants are whole seconds, an open window
has no end, vectors and scores are reals, and the embedder, the token counter, the clock and
the nDCG discount are functions given from outside.

## Where the code and its description differ

The model follows the code.

- A retraction at exactly the instant a fact began is refused by the store
  (`FactAlgebra.RetractionAtStartRefused`), although what parses a model's answer lets it
  through (extract/parse.go:219, which is not part of this model).
- An assertion is kept out of the table by triple, not by triple and window: restating one
  stored window drops the batch's other windows for that triple. `Restating.AssertionHasRow`
  says exactly when, and `Restating.SecondWindowLost` is a run where it happens.
- A backfill over all scopes that runs out of budget hands back a cursor naming one scope, so
  resuming it walks that scope and then reports the end (`Backfill.PageCatalogue`). Every scope
  ends covered if and only if those behind that one were covered already
  (`Backfill.CatalogueCoveredExactlyWhen`, with `Backfill.SecondScopeLeftOut` for a failure).
- A lease is fenced by worker id alone, so a report left over from one lease is accepted
  during the next lease by the same id (`QueueHistories.StaleReportAccepted`).
- Encodings dropped after a process wrote them and before it reported can stay lost although a
  backfill covered their episodes: a batch that is exactly the held job's list collapses onto
  that job, whose report is then accepted (`Staleness.StaleRun`). Any other batch is
  enqueued as a job of its own, and so is that one after the report. An episode catches up if
  and only if some job naming it has nobody stale on it (`Staleness.CatchesUpExactlyWhen`), a
  scope if and only if that is so of everything pending in it (`Staleness.ClearExactlyWhen`).
- Erasure leaves nothing that names an episode when operations are single steps. An extraction
  locks only the episodes it marks for the first time, so one it had marked before can be erased
  during it and be named again (`Transactions.LateKeepsProjections`), and an erasure deletes
  facts first, so it misses those of an extraction that commits before its last statement
  (`Transactions.ErasureMisses`). Both conditions are exact over runs.
- The strict rewrite is idempotent exactly for the documents of `StrictSchema.Idempotent`. It
  drops a required name that is not a property (`StrictSchema.RequiredOutsideProperties`,
  `StrictSchema.RequiredForgotten`), and a null cannot stand in for a missing
  optional property whose enumeration does not list it (`StrictSchema.FillableIffEnumerated`).
  It goes into enumerations too, and can change what they list (`StrictSchema.EnumeratedObjectLost`).
- An extraction naming one episode twice fails, like one naming an episode that is not there
  (`Invariants.DuplicateNamesRefused`).
- The history check of a migration accepts a ledger with a gap (`Migration.GapPasses`); that
  the ledger is a prefix rests on the protocol that extends it.

## Model

| member | source | states |
|---|---|---|
| Store.Store.Append | postgres/episode.go:42-81 | the new tables are the specified ones; rows come back in the order given, with minted ids and consecutive sequence numbers, and with them the jobs added: for each kind asked, unless the batch is in flight for it already, one that names the whole batch, with the run time and the attempts asked for |
| Store.Store.Enqueue | postgres/queue.go:46-98 | returns the outstanding job that is exactly this work if there is one, and changes nothing; else adds one, waiting, with the run time and the attempts asked for or now and five |
| Store.Store.Lease | postgres/queue.go:106-172 | of the rows that are due, of a kind asked for and not locked, as many as asked for and none behind one that is left are running afterwards, with one attempt more, held by the worker until now plus the duration asked for, or plus five minutes if none was; no other row changes |
| Store.Store.Succeed | postgres/queue.go:175-200 | accepted exactly when the worker holds the job, which is then done and held by nobody; otherwise nothing changes and the error says whether the job exists |
| Store.Store.Fail | postgres/queue.go:207-238 | accepted exactly when the worker holds the job; a job out of attempts goes dead with its run time as it was, another waits until the retry instant |
| Store.Store.Reclaim | postgres/queue.go:245-268 | every row whose lease ended before now goes back to pending, or to dead if its attempts are spent, with nothing else of it changed; every other row stands, and the result counts them |
| Store.Store.Retry | postgres/queue.go:569-612 | revives a dead job with its whole allowance, claimable at once, unless the same work waits or is under way; the error says which of three reasons there was |
| Store.Store.Purge | postgres/queue.go:631-664 | of the rows in the states asked for, or finished if none was, that changed last before the horizon, as many go as the limit allows, a thousand if none was given, none of them younger than one that is left; refused exactly when asked for owed work |
| Store.Store.PutEncoding | postgres/encoding.go:29-63 | writes the vector and its instant exactly when the episode exists, with the scope and ingest time of the episode, which an overwrite keeps |
| Store.Store.PendingIds | postgres/fact.go:489-500 | the first episodes of the scope past the cursor that have no marker of the extractor, or no vector of the model, in sequence order up to the limit; none is passed over |
| Store.Store.DedupeAssertions | postgres/fact.go:311-339 | the loop over a window map computes the specified deduplication |
| Store.Store.ApplyRetractions | postgres/fact.go:252-268 | the row-by-row loop accepts, refuses and closes as specified |
| Store.Store.ExplainRetraction | postgres/fact.go:273-301 | tells an absent fact and an instant not after its start from the acceptable reason |
| Store.Store.ApplyExtraction | postgres/fact.go:141-199 | commits or changes nothing, with the specified error; committed, it has read everything before and changes nothing, or each new row is what the first assertion of its claim and window says, with the episodes named and the instant of the command, and each old row is restated, cut or as it was; the facts its episodes support come back |
| Store.Store.Forget | postgres/forget.go:51-148 | exactly what derives from no episode asked for is left of the scope, and everything of other scopes, row by row in all five tables; the counts are what went; the row of the scope goes with a whole-scope erasure alone |
| FactAlgebra.OverlapsIffShared | fact.go:69-85 | comparing end points decides whether two valid windows share an instant |
| FactAlgebra.OneAnswerPerInstant | postgres/migrations/0002_facts.sql:91-93 | at most one row answers for a claim at any instant |
| FactAlgebra.DedupeKeeps | postgres/fact.go:311-339 | what survives covers every claim of the batch and holds no two overlapping windows of one triple |
| FactAlgebra.DedupeRejectsSharedInstants | postgres/fact.go:311-339 | a batch of valid windows is refused exactly when two unequal windows of one triple share an instant |
| FactAlgebra.DedupeOrderFree | postgres/fact.go:311-339 | acceptance does not depend on the order of the batch |
| FactAlgebra.RetractAllAccepts | postgres/fact.go:252-301 | a list is accepted exactly when each names a fact of the scope strictly after its start |
| FactAlgebra.RetractAllCuts | postgres/fact.go:121-128 | each row ends at the earliest of its end and the instants naming it, and changes in nothing else |
| FactAlgebra.RetractionsCommute | postgres/fact.go:252-268 | any order of the same retractions is accepted or refused alike and leaves the same table |
| FactAlgebra.RetractionAtStartRefused | postgres/fact.go:291-297 | a retraction at exactly the start is refused |
| FactAlgebra.ConflictIsWithStored | postgres/fact.go:104-113 | a deduplicated batch is refused exactly for a window overlapping a stored one |
| FactAlgebra.RestatedTripleInsertsNothing | postgres/fact.go:110-113 | restating one stored window keeps the batch's other windows of that triple out; exactly which assertions have a row is Restating.AssertionHasRow |
| FactAlgebra.ConcludedKeepsWindows | postgres/fact.go:80-128 | windows of one claim stay valid and disjoint through an extraction |
| Invariants.AppendTakesBlock | postgres/episode.go:42-81 | an append takes the next contiguous block of its scope, in order, and changes no other row |
| Invariants.ConcludedRows | postgres/fact.go:80-128 | row by row what an extraction does to the facts: keys, starts and provenance kept or grown, ends only cut, new rows from the batch |
| Invariants.ProjectionStep | postgres/forget.go:51-147 | every operation keeps projections naming only existing episodes of their scope, with copied columns true and facts marked |
| Invariants.QueueStep | postgres/migrations/0001_init.sql:237-262 | every operation keeps the row constraints, the attempts of each state, and one job in flight per work |
| Invariants.DuplicateNamesRefused | postgres/fact.go:171-175 | rows found are as many as the names given if and only if the names are distinct and all of episodes in the scope; otherwise the extraction fails |
| Invariants.Reachable | postgres/migrations/0001_init.sql:79-127 | every run from an empty store satisfies the whole invariant |
| Histories.EpisodesImmutable | postgres/migrations/0001_init.sql:157-172 | across any run a surviving episode row is unchanged and one that is gone never returns |
| Histories.ErasedForGood | postgres/forget.go:51-147 | after an erasure nothing derived names the episode, whatever any client or worker does later, each operation one step; `Transactions` says what becomes of it otherwise |
| Histories.ErasureSparesTheRest | postgres/forget.go:51-82 | rows deriving from none of the named episodes stand exactly as they were |
| Histories.SeqsNeverRepeat | postgres/episode.go:44-49 | until a whole-scope erasure, a later episode is above every number handed out before |
| Histories.SeqsAreDense | postgres/episode.go:42-81 | with nothing erased from a scope its numbers are exactly 1..LastSeq |
| Histories.ScopeStartsAgain | postgres/forget.go:104-126 | after a whole-scope erasure nothing of the scope is left and the next append numbers its episodes from one |
| Histories.MarkersStand | postgres/fact.go:52-65 | a marker stands unchanged as long as its episode does |
| Histories.ReplayIsFree | postgres/fact.go:148-198 | after a committed extraction, any extraction of a subset of its episodes by that extractor changes no table |
| Histories.WindowHistory | postgres/fact.go:86-128 | across any run a fact's claim and start never move and its end is the earliest of its own and every committed retraction |
| Histories.PastStaysAnswerable | postgres/fact.go:252-301 | the answer at an instant before every retraction is unchanged |
| Histories.PastAnswersTheSame | postgres/fact.go:252-301 | with nothing erased, a query about an instant before every later retraction, from what was known before every later extraction, is answered by exactly the same fact ids; what their rows say is Restating.PastRowsSay |
| Restating.AssertionHasRow | postgres/fact.go:80-113 | an assertion of a committed extraction has a row of its claim and window if and only if that row was stored already, or no window the batch asserts for its triple was |
| Restating.SecondWindowLost | postgres/fact.go:110-113 | a run from an empty store where a window is lost: a claim is read from one episode, then from a second beside a later window of it, which has no row afterwards |
| Restating.ContentHistory | postgres/fact.go:86-103 | across any run a surviving row says what it was last restated with, and is evidenced by every episode it was read from |
| Restating.PastRowsSay | postgres/fact.go:86-103 | the rows a query about the past gets have their claim, start and time of learning unchanged and say what they were last restated with; a row never restated says what it did |
| Births.KeepsTheFirst | postgres/fact.go:311-339 | of assertions that repeat one another deduplication keeps the first |
| Births.BornAs | postgres/fact.go:104-113 | every row a committed extraction adds says what the first assertion of its claim and window says, is evidenced by exactly the episodes named, and is dated by the command |
| Births.StoredLeftAs | postgres/fact.go:86-103 | every row that was there says afterwards what the assertion restating it says, with the episodes named beside its own and the instant of the command, or is changed in its end alone |
| Births.BirthHistory | postgres/fact.go:80-128 | every fact a run did not start with comes from one assertion of one of its extractions: claim, start and time of learning are that assertion's still, the end is the earliest of its own and every retraction since, and it says what it was last restated with, or else what that assertion said |
| Births.RestatementMeans | postgres/fact.go:86-103 | a row is restated exactly by the first assertion of a committed extraction to make its claim over the window the row then has |
| Births.MarksAs | postgres/fact.go:52-65 | a committed extraction marks exactly the episodes it names; a new marker has the scope and ingest time of its episode, the number of different claims asserted and the instant of the command |
| Births.MarkedIffRead | postgres/fact.go:52-65 | across any run an episode that stands is marked for an extractor if and only if it was, or an extraction by it that named the episode has committed |
| Births.Outcome | postgres/fact.go:141-199 | exactly when an extraction is refused and with which error, in the order it is checked: malformed, contradicting itself, naming an episode twice or one not there, a retraction that cannot be applied, a claim to be stored over a window believed already; or read before, with nothing to do |
| Pending.ListedUntilRead | postgres/fact.go:489-500 | over any run, what an extractor has to read lists an episode exactly as long as no committed extraction by it has named the episode, unless the page is full of ones before it |
| Pending.ReadIsNeverPending | postgres/fact.go:489-500 | once an extraction has committed none of its episodes is listed for its extractor again |
| QueueHistories.TransitionsFall | postgres/queue.go:185-258 | leasing, finishing, failing and reclaiming strictly lower the work owed whenever they change anything |
| QueueHistories.OnlyNewWorkRaises | postgres/queue.go:583-592 | nothing but an append, an enqueue or a retry raises it |
| QueueHistories.QueueQuiesces | postgres/queue.go:106-258 | with no new work the queue moves at most as often as it owes |
| QueueHistories.AttemptsBounded | postgres/queue.go:120-148 | without a retry a job is leased exactly as often as its attempts say and never more than its allowance |
| QueueHistories.LeaseHolds | postgres/queue.go:138-148 | how a claimed row stands right after the claim, column by column: running, one more attempt, held by the worker until now plus the duration asked for, or plus five minutes |
| QueueHistories.LeaseExcludes | postgres/queue.go:120-198 | while a lease stands no other lease returns the job, over every interleaving |
| QueueHistories.HolderSucceeds | postgres/queue.go:185-198 | unless its holder fails it, it is reclaimed late or its work is erased, the row stands as leased, nobody else gets it, and the holder's first success is accepted |
| QueueHistories.ClaimerSucceeds | postgres/queue.go:106-198 | from the claim on: with every reclaim at or before now plus the duration asked for, no report by the worker yet and no erasure of the work, nobody else gets the job, its row stands as leased, and the worker's success is accepted |
| QueueHistories.StaleReportAccepted | postgres/queue.go:191-199 | fencing by worker id alone accepts a report left over from an earlier lease |
| QueueHistories.StaleReportHappens | postgres/queue.go:191-199 | one job leased twice by one worker id takes the first lease's report |
| QueueHistories.LeaseTakesOldestFirst | postgres/queue.go:135-136 | a claim never passes over a candidate for one behind it |
| QueueHistories.LeaseFillsItsLimit | postgres/queue.go:135-136 | a claim takes as many candidates as its limit allows, and no fewer |
| QueueHistories.ClaimedClaims | postgres/queue.go:129-136 | the claimed rows in terms of the columns: due, unlocked, of a kind asked for, as many as the limit allows, none behind one that is left |
| QueueHistories.PurgedPrunes | postgres/queue.go:644-655 | the pruned rows in the same terms: in a state asked for, settled before the horizon, the oldest up to the limit |
| Effects.AppendQueuesItsWork | postgres/episode.go:60-71 | the work an append implies commits with it: for each kind one outstanding job names the whole batch in order |
| Effects.FailureWaits | postgres/queue.go:221-229 | a failed job is not claimed before its retry time, nor ever once its attempts are spent |
| Effects.FailureReturns | postgres/queue.go:221-229 | with attempts left it can be claimed from its retry time on |
| Effects.ReclaimReachesTheExpired | postgres/queue.go:251-258 | a reclaim leaves no expired lease, keeps every other row, and sends spent jobs to dead |
| Effects.RetryRestores | postgres/queue.go:583-592 | a revived job has its whole allowance again and can be claimed at once |
| Effects.PurgeTakesTheOldestFinished | postgres/queue.go:648-655 | pruning never takes owed work, and takes no row before an older one |
| Effects.ConclusionsLand | postgres/fact.go:80-113 | each assertion has a row of its own unless its triple was restated, and restated rows carry the new statement, confidence and episodes |
| Effects.ErasureDropsJobs | postgres/forget.go:45-75 | exactly the scope's jobs naming an erased episode go, the rest stand |
| Transactions.NewEpisodesAreSafe | postgres/fact.go:52-65 | an extraction of episodes its extractor never read does, whatever commits between its marking and its conclusions, what it would have done as one step at its end |
| Transactions.LateKeepsProjections | postgres/fact.go:148-198 | any extraction that others come between keeps every fact on existing episodes if and only if it asserts nothing or all its episodes still stand; an erased one is named again exactly if it asserts anything |
| Transactions.ErasedAndNamed | postgres/fact.go:148-198 | a run from an empty store where it does: an episode read before is erased during an extraction, and a fact names it afterwards |
| Transactions.ErasesAsIfAtItsEnd | postgres/forget.go:51-126 | an erasure whose first and last statements have anything between them but an extraction of what it erases does what it would have done as one step at its end |
| Transactions.ErasureMisses | postgres/forget.go:51-126 | with no other erasure in the scope between its first statement and its last, an erased episode is named by a fact afterwards if and only if an extraction that names it and asserts anything commits in between |
| Backfill.EnqueueBatches | ops/backfill.go:310-336 | afterwards every listed episode has an outstanding job and every batch is in flight, in as few jobs as the batch size allows; only jobs were added, none if all batches were in flight before, and as many collapsed as were held already from before the call |
| Backfill.Advance | ops/backfill.go:241-273 | one page moves a cursor past everything it covered, or finds nothing left, and what it counts is what is pending no more |
| Backfill.BackfillScope | ops/backfill.go:225-278 | ends with every kind exhausted or some kind out of budget, every cursor covering what is behind it |
| Backfill.ResumeSeq | ops/backfill.go:382-396 | the least progress of any kind that still has work there |
| Backfill.Backfill | ops/backfill.go:133-204 | scopes before the stop are covered whole, the stop's up to a strictly larger cursor, later ones untouched; it stops in the first scope by which some kind lacks its budget, and each kind counts all it lacked up to its budget; every job added is of a kind asked for, of at most the batch asked for of episodes that kind had still to do, to run when asked |
| Backfill.StopMeans | ops/backfill.go:142-149 | a call goes on exactly while every kind has counted less than the limit asked for, or than a thousand episodes if none was |
| Pending.CoveredMeans | ops/backfill.go:289-308 | a scope is covered exactly when every unread episode is named by an outstanding extract job and every one without a vector by an outstanding encode job |
| Backfill.SecondCallAddsNothing | ops/backfill.go:121-127 | a second call with the same request, with nothing changed in between, stops where the first did and adds no job |
| Backfill.NextPage | ops/backfill.go:160-204 | a resumed page strictly advances and extends the coverage, or reports the end with the scope covered |
| Backfill.PageScope | ops/backfill.go:160-204 | feeding cursors back terminates with every pending episode of every kind in an outstanding job |
| Backfill.PageCatalogue | ops/backfill.go:199-202 | paging all scopes covers those up to the one the first call stops in, the first by which some kind lacks its budget, and adds jobs to no other |
| Backfill.CatalogueCoveredExactlyWhen | ops/backfill.go:133-204 | the whole catalogue ends covered if and only if every scope behind that one was covered already |
| Backfill.SecondScopeLeftOut | ops/backfill.go:195-202 | two scopes with one pending episode each and a budget of one: the second ends with no job |
| LiveBackfill.LiveWalkMeetsAll | ops/backfill.go:121-127 | with anything at all between its statements, a walk that reaches its end met every episode that was there from the start and still is: at some moment it was projected or an outstanding job named it |
| LiveBackfill.WalkCanEnd | ops/backfill.go:225-278 | undisturbed, such a walk does reach its end, from any reachable store |
| Workers.RetryBackoff | worker.go:466-478 | the doubling loop yields the capped power of two |
| Workers.BackoffNeverShrinks | worker.go:460-478 | a later attempt never waits less, and always between ten seconds and ten minutes |
| Workers.BackoffDoubles | worker.go:466-478 | the first wait is ten seconds and each after it twice the one before, up to ten minutes |
| Workers.EncodingsAreProjection | worker.go:343-376 | in every run of any number of processes, every stored vector of the model is the embedding of its episode |
| Staleness.EncodedIffWritten | worker.go:365-375 | across any run a surviving episode has its vector if and only if some process wrote it with no drop after, or it had it and nothing was dropped |
| Staleness.CatchesUpExactlyWhen | worker.go:303-317 | an episode without a vector gets one in every run without a drop that does all the jobs naming it, if and only if nobody is stale on one of those jobs: has written it and will report without writing it again |
| Staleness.AfterBackfill | ops/backfill.go:112-119 | where nobody is in the way, once the encode jobs outstanding after a covering backfill have been done, rows purged or erased since or not, the scope's encodings are the embedder applied to the log as it stood, less erasures |
| Staleness.ClearExactlyWhen | ops/backfill.go:112-119 | nobody is in the way of a scope if and only if every pending episode of it catches up in every such run |
| Staleness.CoverageClearsTheWay | ops/backfill.go:112-119 | a covering backfill clears the way when nobody is stale |
| Staleness.QuietIsNotStale | worker.go:303-317 | nobody is when no process has written or is reporting a success |
| Staleness.DropMovesNobody | worker.go:303-317 | and dropping the encodings changes that for nobody |
| Staleness.StaleRun | worker.go:287-317 | a run from an empty store where coverage is not enough: a drop after the write, a backfill that collapses onto the job still held, and its report leave every owed job done and the episode unencoded |
| Restoring.LiveBackfillRestores | ops/backfill.go:112-122 | a walk that reaches its end while clients and workers go on restores the vectors: once every encode job that named an episode meanwhile has been done, with nothing dropped since and nobody stale on it at the start, the episode has the vector the embedder makes of it |
| Drain.EncodeJob | worker.go:343-376 | encodes all the job's episodes, or, if one is not there in its scope or the embedder fails, writes nothing |
| Drain.RunAndReport | worker.go:303-317 | the job's row ends done, or waits for the backoff of its attempts, or is dead with its attempts spent, and no other row moves |
| Drain.DrainOnce | worker.go:287-317 | every claimed job ends done exactly when it could be encoded, the count is theirs, other jobs stand |
| Alone.LeasesAlone | worker.go:287-297 | a process with nothing in hand takes over what a claim in its name gives, each job as it then stands and held by its worker; no other claim is its business |
| Alone.RunsAlone | worker.go:303-376 | the interleaved protocol refines the sequential loop: the steps of one encode job with nobody else moving leave the tables the loop leaves, the row done or handed back with the backoff |
| Alone.DrainsAlone | worker.go:299-317 | and so job by job for a whole batch: each ends as the loop over a batch leaves it, with its encodings written, and no other job changes |
| Alone.ExtractsAlone | worker.go:303-317 | an extract job ends done exactly if its extraction was accepted, and writes what that wrote |
| Ingest.AppendBatch | mempher.go:200-246 | accepted exactly for one to sixty-four requests of one scope, each with a scope and a content, and refused for its size or the first that cannot be taken; each episode has the content, role, actor, source and binding of its request and happened when that says or, if it does not, now; the log grows by them in order, and the jobs added are to encode the batch and, with an extractor, to read it, at once |
| Ingest.AnySplit | mempher.go:170-199 | any split of the same episodes into batches leaves the same contents at the same numbers |
| Ingest.Ingest | eval/eval.go:264-282 | the history is recorded in order, each episode with the fields of its request, and whole unless a request cannot be taken, when everything before its batch is; into a fresh scope Seq less one is the index |
| Fusion.Resolve | fusion.go:94-122 | accepted exactly when K and every weight are non-negative and every channel valid; K and the weight of each channel after defaults |
| Fusion.FirstIsBest | fusion.go:145-153 | in a ranking listed best first, the mention that counts is the best one |
| Fusion.Fuse | fusion.go:154-212 | each found episode once, scored over the channels that did not fail, in strict order of score and id |
| Fusion.SlotOrderFree | fusion.go:131-134 | the fused list does not depend on the order of the channel slots |
| Fusion.AgreementFirst | fusion.go:28-38 | with equal weights and every rank less than K+2, for any real K, episodes two channels found precede those one found |
| Fusion.PastTheBound | fusion.go:28-38 | K+2 is exact: at every rank from there on two channels can agree on an episode that comes after one only one of them found |
| Weights.AddsItsWeight | fusion.go:165-193 | one channel more adds to a row it names its weight over K plus the rank of its first mention, and its hit, whatever else was found; a row it alone names has just that score |
| Weights.WeighsNothing | fusion.go:165-193 | a channel of weight zero moves no score, and its hits are there |
| Weights.WeightsDecide | fusion.go:183-209 | of two episodes that one channel each found, the first is the one whose weight times K plus the other's rank is greater, and on a tie the newer |
| Weights.HeavierTopFirst | fusion.go:183-209 | the tops of two channels, where nobody else found them, come in the order of the weights |
| Weights.ListsTheMentioned | fusion.go:154-212 | the list names exactly the episodes that the ranking of some channel that did not fail names, each once |
| Recall.ResolveChannels | mempher.go:470-484 | the defaults, or each requested channel once where it was first asked for |
| Recall.CutFacts | mempher.go:351-365 | the longest prefix of the facts within limit and budget, each at the cost of its statement; it stops short only at the limit or where the next would break the budget |
| Recall.CutEpisodes | mempher.go:367-379 | the longest prefix of the fused list within what the facts left, each at the cost of its content, stopping short likewise |
| Recall.Recollect | mempher.go:321-381 | fails exactly when every channel did; otherwise both prefixes are maximal, tokens are their cost and within the budget, truncation means something is missing |
| Recall.FactsComeFirst | mempher.go:348-350 | the facts returned are the same whatever episodes were found |
| Recall.RecallDeterministic | mempher.go:259-262 | the whole recollection does not depend on the order of the slots |
| StrictSchema.Strictify | extract/openai/openai.go:253-304 | the in-place rewrite, making properties nullable before going into them, computes the specified one on every document |
| StrictSchema.NullableCommutes | extract/openai/openai.go:289-301 | making a node nullable before or after its own rewrite comes to the same |
| StrictSchema.NothingOptional | extract/openai/openai.go:280-296 | afterwards an object requires exactly the properties it had, and the only property it can have beyond them is the "required" its map of properties gains |
| StrictSchema.Idempotent | extract/openai/openai.go:267-304 | rewriting again changes nothing if and only if, wherever the rewrite goes, a map of properties that is taken for an object schema has a property named "required" |
| StrictSchema.NamedPropertiesGrows | extract/openai/openai.go:272-301 | a document with a property named "properties" changes on the second rewrite; with one named "required" beside it, it does not |
| StrictSchema.AllowNullAdmits | extract/openai/openai.go:306-314 | a nullable node admits what it did, and null exactly as far as its enumeration does |
| StrictSchema.FillAdmitted | extract/openai/openai.go:246-252 | a value the schema admits is admitted by the rewrite once missing optional properties are null, at every depth, where each optional property can be null |
| StrictSchema.DropAdmitted | extract/openai/openai.go:246-252 | a value the rewrite admits is admitted by the schema once null optional properties are left out, at every depth, where required names are properties |
| StrictSchema.DropUndoesFill | extract/openai/openai.go:246-252 | leaving nulls out undoes filling them in |
| StrictSchema.RequiredOutsideProperties | extract/openai/openai.go:280-296 | a required name that is no property is forgotten by the rewrite |
| StrictSchema.RequiredForgotten | extract/openai/openai.go:280-296 | so an object of one property alone is admitted by the rewrite and refused by a schema that requires another name |
| StrictSchema.FillableIffEnumerated | extract/openai/openai.go:287-290 | a missing optional property can be null exactly when its enumeration allows it |
| StrictSchema.EnumeratedBecome | extract/openai/openai.go:297-302 | an enumeration afterwards admits exactly what its members become |
| StrictSchema.EnumeratedObjectLost | extract/openai/openai.go:297-302 | so an enumerated object that has properties of its own and no "required" is admitted by the schema and not by the rewrite |
| Cue.AfterValid | worker.go:501-504 | valid text followed by more is valid exactly when the rest is |
| Cue.ValidIsEncoded | worker.go:501-504 | text is valid exactly when it is the bytes of some code points that are no surrogates, one after another (section 3 of RFC 3629) |
| Cue.BoundaryNear | worker.go:501-504 | a character boundary lies within three bytes before any place in valid text |
| Cue.KnownFactCue | worker.go:487-506 | the longest valid prefix within the cap of all contents joined, at most three bytes short of it |
| Digest.Canonical | extract/extract.go:215-218 | the sorted set of the predicates, however they were listed |
| Digest.DigestInput | extract/extract.go:433-448 | the bytes written are the fields of the configuration, length-prefixed, in order |
| Digest.InputSpelled | extract/extract.go:433-448 | those bytes spelled out: prompt version, instructions, cap and flag, each under its key and behind its length, and then the predicates |
| Digest.FieldsReadBack | extract/extract.go:430-432 | whatever separators the values contain, the fields can be read back from the bytes |
| Digest.SameIdentity | extract/extract.go:215-232 | two configurations feed the hash the same bytes exactly when instructions, cap after default, reconcile flag and predicate set agree |
| Metrics.GainAtMostIdeal | eval/metrics.go:34-47 | no ranking gains more than the relevant ones coming first, and as much only if they do |
| Metrics.FoundAtMostRelevant | eval/metrics.go:34-50 | distinct episodes are found relevant at most as often as there are labels |
| Metrics.Grade | eval/metrics.go:20-63 | recall and nDCG lie in [0,1]; nDCG is the gain over that of a perfect ranking, and 1 exactly when as many as could be relevant come first and are; reciprocal rank is that of the first hit |
| Migration.CheckHistory | postgres/migrate.go:404-433 | no fault exactly when every recorded migration is embedded unedited; otherwise the lowest unknown version, else the lowest edited one |
| Migration.Database.Migrate | postgres/migrate.go:161-233 | alone: applies the missing versions in order; success is every version applied and the configuration passing its check; a failed transaction leaves the ones before it, a failed check all of them |
| Migration.AcquireLock | postgres/migrate.go:318-344 | polls with doubling waits until got, or until one more wait would reach the deadline |
| Migration.GapPasses | postgres/migrate.go:404-433 | the history check alone accepts a ledger with a gap |
| Migration.MigrationsSafe | postgres/migrate.go:204-236 | over every interleaving and death of calls of any builds, versions 1..k ran once each in order, rows never change, and success means the build's migrations are there for good |
| Migration.LedgerIsPrefix | postgres/migrate.go:404-481 | with one build the ledger is always a prefix of it, no call is refused for its history, and success means all of it ran |
| Migration.CallCompletes | postgres/migrate.go:161-236 | wherever others have left it, a call that waits for a free lock on a database its build agrees with can go through: it returns without error, the whole build is in the ledger and the lock free again |

## Left out

- Concurrency inside a statement or transaction: that each operation is one atomic step is an assumption of the model, which the default isolation does not give; where it matters to a promise, an extraction and an erasure against each other, `Transactions` splits them in two. A lease takes the rows other transactions have locked as a parameter.
- Transactions.LateKeepsProjections: the conclusions and commit of an extraction are one step, and what the row locks and foreign keys hold off in between is stated as its hypothesis.
- Transactions.ErasureMisses: the row locks are a hypothesis here too, and a second erasure in the same scope meanwhile is excluded, since it may take the fact that the first one misses.
- Backfill.Backfill: nothing else changes the store while a walk runs, which `LiveBackfill` and `Restoring` lift for one kind in one scope. The catalogue is one list rather than pages of a hundred scopes, and a store error part way is not modelled.
- Drain.DrainOnce: one worker without an extractor, with nobody else about and no cancellation; the interleaved protocol, extraction jobs included, is `Workers`.
- Workers.EncodingsAreProjection: for encodings of the configured model written by worker processes; what an extraction asserts or retracts is arbitrary.
- FactAlgebra.DedupeRejectsSharedInstants: an instant has no location; windows are compared there with the location of their times, so a repeat of the same instants in another zone is refused as overlapping rather than dropped.
- Order of a fact's episode ids: provenance is a set, since only membership is ever asked of it.
- Columns nothing depends on: `last_error`, `surprise`, job ids in append results; vector dimensions and the checks for infinities.
- Length, character, role and zero-value checks of requests: a request is valid when its scope and content are non-empty; a predicate is valid by a function given from outside.
- Fusion.Fuse: hits are a map from channel rather than a list sorted by channel name; scores are reals, so rounding and infinities are not modelled; the library sort is an insertion sort. Ranks start at one and channels are distinct, as recall makes them.
- Fusion.Resolve: which of several faults in the weights is named, which the code fixes by sorted channel name.
- Recall.Recollect: candidates and facts of the channels are given; searching, embedding the query and running channels at once are not modelled beyond the slots they fill.
- StrictSchema.Strictify: maps are rewritten as values, field by field, rather than in place, so aliasing between nodes is not captured; JSON text is not parsed. The meaning of a schema covers type, enum, required, properties, additionalProperties, items and the length and number bounds.
- Cue.KnownFactCue: contents are non-empty valid UTF-8, as recording requires.
- Digest.SameIdentity: the SHA-256 and its truncation, and the prompt and schema text.
- Migration.Database.Migrate: the DDL itself, and what the extension, text-search and configuration checks look at; whether they pass is given.
- Metrics.Grade: aggregation over questions, percentiles and the printed summary; the discount is any positive strictly decreasing function.
- Full-text and vector search, the HTTP adapters, prompts, SQL text and row scanning, the worker's timer and log.
- The evaluation's drain loop, which repeats `Drain.DrainOnce` up to a thousand times.
