# DarkPulse, verified

A Dafny model of the protocols and data structures of DarkPulse, with proofs of what they keep.
`dafny verify dfyconfig.toml` checks the whole project.

A collected record passes through these parts, one module each:

| module | what it models |
|---|---|
| `Dedup` | reserve / publish / commit: any number of interleaved `process` calls over ownerless, expiring markers and one unique index; both marker stores and the pipeline as objects |
| `Crawl` | the bounded breadth-first crawl of an onion site |
| `Telegram` | the checkpointed message collector and how a run of it ends |
| `Queue` | the leased work queue as one live processor runs it, with crashes, restarts, shutdowns and dead-letter retries between any two statements |
| `Alerts`, `Effects` | the effects of processing (intel row, graph, alert rows, broadcasts, snapshots) under any number of workers, stale lease holders and crashes |
| `Processor` | `MongoProcessor` as an object, method by method, with an exception possible at every await |
| `Refinement` | calls of `_process_doc` as runs of one worker of the machine in `Effects` |
| `Ledger` | the hash-linked evidence ledger: optimistic appends by any number of callers, and the link scan |
| `Graph`, `GraphContents` | the relationship graph and its replay-absorbing upsert |
| `Entities`, `Slang`, `Discovery` | entity merging, the slang dictionary with its index and fuzzy cache, the bounded term counters |
| `Keyset`, `Intel`, `Actors` | cursor pagination of intel records and of actor groups |
| `RateLimit` | the in-memory sliding-window limiter |
| `Common`, `Order` | `Option`, duplicate-free sequences; the text order used for timestamps and ids |

Protocols with concurrency are state machines: a run is a sequence of events, each enabled where it
happens, and a theorem speaks about every run. Where the source is an object that changes its fields,
there is a class beside the machine whose methods are proved against the same functions.

## Results that qualify what the code promises

Each is stated as an exact condition, for all inputs or all runs.

* **Queue.** Content over the size limit is written twice (`failed`, then the final status by the
  error handler). If at the last allowed attempt the second write does not happen, because the process
  dies, is shut down, or the handler's own write fails, the record stays `failed` with no attempts
  left: nothing claims it and nothing exhausts it. This is the
  only way to strand a record (`Queue.StrandsExactlyWhenTorn`, `Queue.StrandedExactlyAfterTorn`);
  `Queue.StrandedByACrash` is a run of four events that does it. A queue that has come to rest has
  settled every record exactly when this did not happen (`Queue.RestIsSettledUnlessTorn`).
* **Ledger.** The index on `previous_hash` covers strings only, so two calls that both read an empty
  ledger can both become roots. The chain stays linked exactly when no such second root is inserted
  (`Ledger.BreaksExactlyWhenForking`, `Ledger.LinkedExactlyWithoutFork`, and the concrete run
  `Ledger.TwoRootsOnAnEmptyLedger`). From a ledger with its genesis record on, it always stays linked.
* **Alerts.** An alert is broadcast by the worker whose insert created its row. It stays silent for ever
  (`Effects.SilentForEver`) when that worker dies between the insert and the broadcast, and also when a
  watchlist is created or changed and its backfill, which broadcasts nothing, is the first to insert the
  row; a worker that comes to the same alert later finds the row and says nothing. Over whole runs these
  are the only ways (`Effects.SilentExactlyWhenSilenced`), and both happen: `Effects.SilencedAlert` is a
  run with a crash, `Effects.SilencedByBackfill` one without.
* **Dedup.** A `duplicate` answer does not mean that a row is stored. It comes without one exactly
  when nothing was inserted for the key so far and somebody's reservation still stands, be it of a
  call that failed or died (`Dedup.DuplicateWithoutARow`, with the run `Dedup.DuplicateOfACrashedCall`).
* **Intel pages.** A cursor replaces the upper date bound, so a cursor made up by the caller that
  lies beyond `date_to` lets later records in; no cursor that a page hands out does
  (`Intel.RangeExactUnlessOverreaching`). `Intel.RecordBeyondDateTo` is such a request and its answer.
* **Actors.** The listing hands out cursors that it refuses when they come back: base64 of the JSON of a
  long alias is longer than the 512 characters that it accepts. Following the cursors lists everything
  exactly when no page but the last ends at such an alias, and up to the first of these pages otherwise
  (`Actors.CursorsListEveryActorOnce`, `Actors.FitsExactly`); `Actors.UnreachableActor` is a listing
  whose second alias is never reached.
* **Crawl.** A malformed href raises out of the whole crawl, wherever it stands. A crawl is cut short
  exactly when its last page is an unreachable seed, has such an href among those that are looked at, or
  one of the stores or the consumer of the records raised (`Crawl.OnionCollector.Collect`).
* **Slang.** A term that is given another canonical stays listed under the old one, and only that
  breaks the index (`Slang.EnlistTidyExactly`, with two additions that do it in `Slang.StaleListing`).
  A cached fuzzy answer is always a prefix of the fresh
  one, and equals it exactly when the cached list is long enough (`Slang.CachedAnswer`).
* **Telegram.** Undated messages never reach the collector, so a full window of them stops the cursor
  for good. Over any sequence of runs, failing ones among them, with enough completed ones, every
  dated, non-blank message is handed to the pipeline exactly when no such block stands before one
  that still needs it (`Telegram.HandedOverUnlessBlocked`); for every limit there is a channel that is
  stuck (`Telegram.StuckForEver`).

## Model

| member | source | states |
|---|---|---|
| Queue.FirstClaimable | src/darkpulse/broker/processor.py:138-180 | the claimed record is claimable and no earlier one is; none is claimed only if none is claimable |
| Queue.StepKeepsOk | src/darkpulse/broker/processor.py:121-180 | every step keeps 0 <= attempts <= max_attempts, attempts left for whatever is pending or waiting, a lease on whatever is leased, and the record in hand in its place |
| Queue.ClaimsConserved | src/darkpulse/broker/processor.py:138-180 | over any run, from any state, claims = change of attempts + dependency_waits, plus releases, plus the attempts that retries reset |
| Queue.WaitsBounded | src/darkpulse/broker/processor.py:391-416 | a record in play has waited at most 99 times and a settled one 100 times, plus once per dead-letter retry; a retry forgives at most max_attempts |
| Queue.AccountingOfARecord | src/darkpulse/broker/processor.py:138-180 | from the empty collection on: claims = attempts + waits + releases without retries, and claims <= max_attempts + 100 + releases + retries * (max_attempts + 1) always |
| Queue.ForgivenOnlyByRetries | src/darkpulse/api/routes/operations.py:167-200 | only a dead-letter retry resets attempts |
| Queue.ServedUnlessStranded | src/darkpulse/broker/processor.py:121-180 | once its lease time has passed, an unsettled record can be claimed or exhausted exactly when it is not stranded |
| Queue.StrandsExactlyWhenTorn | src/darkpulse/broker/processor.py:199-244 | a step strands a record exactly when it stops the processor between the two writes for oversized content at the last attempt |
| Queue.StrandedStays | src/darkpulse/broker/processor.py:121-180 | a stranded record stays stranded in every continuation |
| Queue.StrandedExactlyAfterTorn | src/darkpulse/broker/processor.py:199-244 | a run ends with no stranded record if and only if no such step happened in it |
| Queue.StrandedByACrash | src/darkpulse/broker/processor.py:199-244 | insert, claim, first write, crash strands a record when one attempt is allowed |
| Queue.WorkSpendsBudget | src/darkpulse/broker/processor.py:121-244 | every working step of the processor lowers a measure built from the waits left, the attempts left and the status |
| Queue.WorkBounded | src/darkpulse/broker/processor.py:121-244 | without releases, retries and new records, the work done plus the measure left is at most the measure at the start |
| Queue.WorkEnabledUntilFinal | src/darkpulse/broker/processor.py:121-180 | with leases run out and nothing stranded, a claim or a sweep can work until every record is settled, and neither can afterwards |
| Queue.CanSettle | src/darkpulse/broker/processor.py:121-244 | from every state without a stranded record some run without releases, retries, arrivals or tears settles every record |
| Queue.SettlesUnlessStranded | src/darkpulse/broker/processor.py:121-244 | such a run exists if and only if no record is stranded |
| Queue.RestIsSettledUnlessTorn | src/darkpulse/broker/processor.py:121-244 | a run of any kind that comes to rest has settled every record if and only if it was not torn |
| Queue.RestIsReachedAndSettled | src/darkpulse/broker/processor.py:121-244 | a run without refills works at most as often as the measure allows, is settled once it rests untorn, and can be settled before |
| Queue.WaitAfterClaim | src/darkpulse/broker/processor.py:391-416 | a claim that ends in a dependency wait costs no attempt; the record can be claimed again exactly from 15 seconds later on, and is settled by its hundredth wait |
| Alerts.RuleAlertsExact | src/darkpulse/broker/processor.py:432-481 | the rule alerts are exactly those of enabled rules whose severity, product and neighbourhood conditions hold |
| Alerts.TermInTextExact | src/darkpulse/broker/processor.py:35-39 | a term of two or more characters is found exactly where no word character touches it |
| Alerts.ListAlertsExact | src/darkpulse/broker/processor.py:483-526 | the watchlist alerts are exactly those of the lists, as read, of which some term is found in the text |
| Effects.OnlyTheActorMoves | src/darkpulse/broker/processor.py:182-244 | a step of one worker leaves every other worker's progress alone |
| Effects.CompletedOnlyWhenDone | src/darkpulse/broker/processor.py:213-230 | no step makes a row completed before its intel row, graph upsert, alert evaluation and snapshot are there |
| Effects.OwnershipStays | src/darkpulse/broker/processor.py:456-485 | an inserted alert that was not broadcast has at most one worker about to broadcast it, and was never broadcast |
| Effects.StepKeepsOk | src/darkpulse/broker/processor.py:182-263 | all of this is kept by every step of any worker, stale or not, and by every crash |
| Effects.EffectsHappenOnce | src/darkpulse/broker/processor.py:213-263 | in every run of any number of workers: one intel row per record, at most one broadcast per alert id and only with a row, and completed rows have had all their effects |
| Effects.SilencesExactly | src/darkpulse/broker/processor.py:456-526 | a step leaves an alert row without a broadcast, made or pending, exactly when it is the crash of the worker that owes it or a backfill that creates the row |
| Effects.SilentForEver | src/darkpulse/broker/processor.py:456-526 | an alert with a row, no broadcast and nobody about to make it stays so in every run |
| Effects.SilentExactlyWhenSilenced | src/darkpulse/broker/processor.py:456-526 | a run ends with such an alert if and only if a worker died in it owing a broadcast or a backfill created an alert row |
| Effects.AnnouncedExactlyOnce | src/darkpulse/broker/processor.py:456-526 | when all workers rest, every alert row was broadcast exactly once if and only if neither happened |
| Effects.SilencedAlert | src/darkpulse/broker/processor.py:456-481 | a run from the beginning in which a crash leaves a silent alert |
| Effects.SilencedByBackfill | src/darkpulse/api/routes/watchlists.py:75-110 | a run from the beginning, without any crash, in which a watchlist that is created during an evaluation leaves one |
| Processor.FirstTimesExact | src/darkpulse/broker/processor.py:456-525 | what an evaluation announces are its alerts that had no row, each once |
| Processor.ReplayAnnouncesNothing | src/darkpulse/broker/processor.py:456-525 | evaluating again what already has its rows announces nothing |
| Processor.MongoProcessor.ExhaustStaleLeases | src/darkpulse/broker/processor.py:121-136 | afterwards no lease is stale, and only stale rows have changed |
| Processor.MongoProcessor.ClaimNext | src/darkpulse/broker/processor.py:138-180 | claims the first claimable row and nothing else, or none if there is none; an unreachable database is remembered as `claim_failed` and changes no row |
| Processor.MongoProcessor.ReleaseOpenLeases | src/darkpulse/broker/processor.py:418-430 | no row is left processing, and every processing row gets its attempt back |
| Processor.MongoProcessor.MarkWaiting | src/darkpulse/broker/processor.py:391-416 | the record gives its attempt back and can be claimed again exactly from 15 seconds later on, or is settled by its hundredth wait; a later claim can resume its saved intel |
| Processor.MongoProcessor.RaiseAlert | src/darkpulse/broker/processor.py:468-480 | only the insert that creates the row broadcasts |
| Processor.MongoProcessor.EvaluateRules | src/darkpulse/broker/processor.py:432-481 | the loop adds a row for every rule alert and broadcasts the new ones in order; an insert that raises leaves those before it in place |
| Processor.MongoProcessor.EvaluateWatchlists | src/darkpulse/broker/processor.py:483-526 | the same for the watchlists |
| Processor.MongoProcessor.EvaluateAlerts | src/darkpulse/broker/processor.py:432-526 | both loops together reach exactly the alerts before the failing statement, which may be an insert or the read between the loops |
| Processor.MongoProcessor.ProcessIntel | src/darkpulse/broker/processor.py:357-389 | an existing intel row is never replaced, and then the dedup key is forgotten; with the graph down the record waits and no alert is raised; success means intel, graph and all alerts are there; broadcast are exactly the new alerts, also when a statement raises |
| Processor.MongoProcessor.Settle | src/darkpulse/broker/processor.py:213-263 | whichever statement raises: the row completes exactly when graph and alerting were up and nothing raised, and then with all effects |
| Processor.MongoProcessor.ProcessDoc | src/darkpulse/broker/processor.py:182-263 | only its own row changes; the row completes exactly when the call gets through, and then with all effects; it does not stay processing unless the write of the exception handler fails |
| Processor.DocKeepsStores | src/darkpulse/broker/processor.py:182-263 | whatever raises: intel rows are never replaced, the stores only grow, and broadcast are exactly the alerts that got their row in the call, each once |
| Processor.CompletedExactly | src/darkpulse/broker/processor.py:182-263 | the exact condition for a row to become completed, and that all effects are there then |
| Processor.NeverLeftProcessing | src/darkpulse/broker/processor.py:231-244 | after an exception the row is failed, or exhausted when no attempts are left, provided that the handler can write |
| Processor.ReplayChangesNothing | src/darkpulse/broker/processor.py:182-263 | processing a settled record again, whatever fails then, changes no other store and announces nothing |
| Refinement.Evaluate | src/darkpulse/broker/processor.py:432-526 | the evaluation, failing or not, is a run of single statements of one worker |
| Refinement.SettleIsARun | src/darkpulse/broker/processor.py:213-263 | so is settling a record |
| Refinement.DocIsARun | src/darkpulse/broker/processor.py:182-263 | so is every call, whatever fails in it: each outcome is the outcome of a run of the machine |
| Refinement.DocKeepsMachineOk | src/darkpulse/broker/processor.py:182-263 | calls keep the invariant of the machine, with any other workers in the middle of their work |
| Ledger.InsertsOnlyAtTheEnd | src/darkpulse/evidence/sealing.py:26-41 | an insert passes both unique indexes only behind the record that is still the last one |
| Ledger.RefusedOnlyAfterGrowth | src/darkpulse/api/routes/evidence.py:36-54 | a refused insert means that another append came in since the call looked its payload up |
| Ledger.StepKeepsOk | src/darkpulse/api/routes/evidence.py:36-54 | every step that is not a second root keeps the chain linear and what each caller relies on |
| Ledger.BreaksExactlyWhenForking | src/darkpulse/storage/mongodb.py:338-345 | a step unlinks the chain if and only if it inserts a second root |
| Ledger.LinkedExactlyWithoutFork | src/darkpulse/storage/mongodb.py:338-345 | a run ends with a linked chain if and only if no second root was inserted in it |
| Ledger.NeverForksAfterGenesis | src/darkpulse/api/routes/evidence.py:36-54 | with the genesis record in place no run inserts a second root |
| Ledger.SealingIsLinear | src/darkpulse/api/routes/evidence.py:36-54 | any interleaving of any number of calls keeps one chain in which each payload is sealed once; calls for one payload return one seal; a call that gives up saw five other appends |
| Ledger.TwoRootsOnAnEmptyLedger | src/darkpulse/storage/mongodb.py:338-345 | a run of two calls on an empty ledger that ends unlinked |
| Ledger.BreaksExact | src/darkpulse/api/routes/evidence.py:109-144 | the reported breaks are exactly the records whose previous hash is not their predecessor's |
| Ledger.BreaksAscend | src/darkpulse/api/routes/evidence.py:109-144 | breaks come in ledger order, none twice |
| Ledger.NoBreaksMeansLinked | src/darkpulse/api/routes/evidence.py:109-144 | no break is reported if and only if the chain is linked |
| Ledger.VerifyChain | src/darkpulse/api/routes/evidence.py:109-144 | a ledger is called verified exactly when it fits the scan and is linked |
| Ledger.EvidenceStore.InsertOne | src/darkpulse/evidence/sealing.py:26-41 | a record is appended exactly when neither unique index refuses it |
| Ledger.EvidenceStore.GenerateSeal | src/darkpulse/api/routes/evidence.py:36-54 | with other appends at every await: the chain stays linear, the answer is a record of the payload, an old record of the payload is the answer, and giving up means five other appends |
| Dedup.StepKeepsOk | src/darkpulse/ingestion/pipeline.py:104-215 | every step, failure, expiry and crash keeps done markers backed by rows, and rows owned by the calls that wrote them |
| Dedup.RowsAreWrittenOnce | src/darkpulse/ingestion/publisher.py:40-55 | a stored row is never replaced, whatever follows |
| Dedup.EndedCallsStay | src/darkpulse/ingestion/pipeline.py:104-215 | the answer of a call is final |
| Dedup.PublishedAtMostOnce | src/darkpulse/ingestion/pipeline.py:104-215 | in every run, with either store: at most one call publishes a key, it is the one that wrote its row, that call never answers duplicate, and done implies stored |
| Dedup.RunKeepsHeld | src/darkpulse/ingestion/pipeline.py:104-215 | in every run a marker without a row goes back to a call that is still at it, has failed or is dead |
| Dedup.MarkerWithoutARow | src/darkpulse/ingestion/pipeline.py:104-215 | until the first insert for a key, its marker is there exactly while a reservation stands, that is, has not expired, been released or been forgotten since |
| Dedup.DuplicateWithoutARow | src/darkpulse/ingestion/pipeline.py:109-127 | a duplicate is answered with nothing stored exactly when no call has inserted a row for the key and a reservation of it stands; that is then another call, unfinished, failed or dead |
| Dedup.DuplicateOfACrashedCall | src/darkpulse/ingestion/pipeline.py:109-127 | a run in which that happens |
| Dedup.ReleaseUndoesReserve | src/darkpulse/ingestion/dedup.py:21-47 | releasing a new reservation restores the store; a done marker survives both |
| Dedup.DoneUntilForgotten | src/darkpulse/ingestion/dedup.py:21-109 | a done marker outlives any operations but forgetting its key, on either store |
| Dedup.DoneOnlyAfterReserve | src/darkpulse/ingestion/dedup.py:51-109 | on Redis only a reservation can lead to a marker; the in-memory store marks a key done without one |
| Dedup.InMemoryDedupStore.ReserveKey | src/darkpulse/ingestion/dedup.py:26-31 | succeeds exactly for an unmarked key, which is pending afterwards |
| Dedup.InMemoryDedupStore.CommitKey | src/darkpulse/ingestion/dedup.py:33-35 | the key is done, whatever it was, and no other key changes |
| Dedup.InMemoryDedupStore.ReleaseKey | src/darkpulse/ingestion/dedup.py:37-40 | the key stays marked exactly if it was done, and no other key changes |
| Dedup.RedisDedupStore.ReserveKey | src/darkpulse/ingestion/dedup.py:83-90 | succeeds exactly for an unmarked key, which is pending afterwards |
| Dedup.RedisDedupStore.CommitKey | src/darkpulse/ingestion/dedup.py:92-98 | the key is marked exactly if it was, and done then; no other key changes |
| Dedup.RedisDedupStore.ReleaseKey | src/darkpulse/ingestion/dedup.py:100-106 | the key stays marked exactly if it was done, and no other key changes |
| Dedup.IngestionPipeline.CommitWithRetries | src/darkpulse/ingestion/pipeline.py:184-215 | commits exactly when at most three commits in a row fail |
| Dedup.IngestionPipeline.PublishReserved | src/darkpulse/ingestion/pipeline.py:129-235 | answer, row and marker for every failure from the publication on; among others it publishes only what nobody has stored |
| Dedup.IngestionPipeline.Process | src/darkpulse/ingestion/pipeline.py:65-235 | a rejected record touches nothing; published means this call wrote the only row; alone, the answer, the row and the marker follow from the stores before and what fails |
| Crawl.LinksExact | src/darkpulse/ingestion/collectors/onion.py:219-233 | the links kept of a page are exactly the canonical ones on the reviewed host, sorted and distinct |
| Crawl.VisitingKeepsOk | src/darkpulse/ingestion/collectors/onion.py:149-214 | visiting the head of the queue keeps levels in order, every entry found on a page one level up, and every link of a visited page visited or queued |
| Crawl.SkippingKeepsOk | src/darkpulse/ingestion/collectors/onion.py:149-152 | dropping a duplicate from the queue loses no link |
| Crawl.NoShorterWalk | src/darkpulse/ingestion/collectors/onion.py:143-217 | no walk through fetched pages reaches a page in fewer links than its recorded depth |
| Crawl.DepthsAreShortest | src/darkpulse/ingestion/collectors/onion.py:143-217 | every recorded depth is the shortest link distance from the seed through fetched, non-blank HTML pages |
| Crawl.EverythingInReach | src/darkpulse/ingestion/collectors/onion.py:143-217 | with an empty queue, every page that any walk of max_depth links reaches was visited, no deeper than that walk is long |
| Crawl.EmittedExact | src/darkpulse/ingestion/collectors/onion.py:168-209 | a record is emitted exactly for each fetched non-blank page whose content is not the remembered one |
| Crawl.OnionCollector.SameHostLinks | src/darkpulse/ingestion/collectors/onion.py:219-233 | computes those links, and raises exactly when an href that is looked at is malformed |
| Crawl.OnionCollector.Emit | src/darkpulse/ingestion/collectors/onion.py:182-209 | what is out and stored when the consumer, the content store or the checkpoint store raises |
| Crawl.OnionCollector.Take | src/darkpulse/ingestion/collectors/onion.py:154-214 | what one fetched page emits, stores, and adds to the queue, and exactly when it ends the crawl |
| Crawl.OnionCollector.Collect | src/darkpulse/ingestion/collectors/onion.py:143-217 | terminates; no URL is fetched twice, none beyond max_pages, max_depth or the host; depths are shortest; below the page bound everything in reach was visited; it raises exactly when its last page does, and then what was handed on and stored until there is kept |
| Keyset.ArrangementUnique | src/darkpulse/api/routes/intel.py:196-198 | a set of records has only one sorted listing |
| Keyset.RestOfArrangement | src/darkpulse/api/routes/intel.py:168-198 | selecting what lies behind an entry and sorting again gives the rest of the listing |
| Intel.CursorRoundTrip | src/darkpulse/api/routes/intel.py:168-207 | a cursor is read back as it was written exactly when the timestamp holds no bar |
| Intel.NothingMissed | src/darkpulse/api/routes/intel.py:163-186 | the tiebreak and the date bounds together select every record behind the cursor, also when date_from widens the tiebreak |
| Intel.RangeExactUnlessOverreaching | src/darkpulse/api/routes/intel.py:163-186 | they select nothing else if and only if the cursor does not lie beyond date_to |
| Intel.RecordBeyondDateTo | src/darkpulse/api/routes/intel.py:163-186 | a request up to 2023 that answers a record of 2024 to a made-up cursor, and nothing without one |
| Intel.ListIntel | src/darkpulse/api/routes/intel.py:109-231 | the page, its cursor and its total; a cursor is present exactly when the total exceeds the limit |
| Intel.CursorContinues | src/darkpulse/api/routes/intel.py:163-207 | the cursor of a page selects exactly what follows that page |
| Intel.CursorsListEverythingOnce | src/darkpulse/api/routes/intel.py:163-231 | following cursors ends and lists the filtered records once each, newest first with ties by id |
| Actors.GroupedExact | src/darkpulse/api/routes/actors.py:40-53 | one group per mentioned alias, counting its mentions |
| Actors.MentionsExact | src/darkpulse/api/routes/actors.py:29-38 | every non-empty alias that the search accepts is counted as often as it occurs in the documents, and nothing else is |
| Actors.ListActors | src/darkpulse/api/routes/actors.py:29-123 | a cursor that is longer than 512 characters or does not decode is refused; else the page, with the cursor of its last group if there is more |
| Actors.FitsExactly | src/darkpulse/api/routes/actors.py:58-60 | the cursor of a group is accepted exactly when its escaped alias and its count have at most 360 characters |
| Actors.CursorContinues | src/darkpulse/api/routes/actors.py:58-110 | the cursor of a page, once accepted, selects exactly the groups that follow it |
| Actors.EveryoneExact | src/darkpulse/api/routes/actors.py:29-78 | the whole listing has every alias once by count and name, and the counts add up to the number of mentions |
| Actors.CursorsListEveryActorOnce | src/darkpulse/api/routes/actors.py:29-123 | following cursors lists the groups in that order up to the first page whose own cursor is refused; it ends with all of them if and only if every cursor on the way fits |
| Actors.UnreachableActor | src/darkpulse/api/routes/actors.py:58-110 | two aliases, one to a page, of which the second is never listed |
| Graph.SettledStays | src/darkpulse/storage/neo4j.py:96-257 | what a statement has achieved no later statement of any document undoes |
| Graph.DocumentSettles | src/darkpulse/storage/neo4j.py:87-257 | after a document every one of its statements has nothing left to do |
| Graph.ReplaysAreAbsorbed | src/darkpulse/storage/neo4j.py:87-257 | a document, any others, then that document again changes nothing |
| Graph.VendorsAreHistory | src/darkpulse/storage/neo4j.py:103-120 | over any history a vendor exists exactly if mentioned, last_seen is the latest mention, first_seen and platform come from the first document that mentions it |
| Graph.LinksAreMaxima | src/darkpulse/storage/neo4j.py:230-257 | a hypothesis link exists exactly if a document with an id asserted it, with the greatest confidence ever asserted |
| Graph.LastSeenIgnoresOrder | src/darkpulse/storage/neo4j.py:103-120 | the same documents in any order and number give the same last_seen |
| Graph.ConfidenceIgnoresOrder | src/darkpulse/storage/neo4j.py:230-257 | and the same confidences |
| Graph.Neo4jManager.UpsertVendors | src/darkpulse/storage/neo4j.py:103-139 | the vendor loop runs the vendor statements of the document in order |
| Graph.Neo4jManager.UpsertProducts | src/darkpulse/storage/neo4j.py:141-171 | the product loop |
| Graph.Neo4jManager.UpsertWallets | src/darkpulse/storage/neo4j.py:173-196 | the wallet loop |
| Graph.Neo4jManager.UpsertLinks | src/darkpulse/storage/neo4j.py:230-257 | the link loop, with its skipped links |
| Graph.Neo4jManager.UpsertIntelGraph | src/darkpulse/storage/neo4j.py:87-257 | the transaction brings the graph to the state that the theorems above are about |
| GraphContents.DocumentIsStored | src/darkpulse/storage/neo4j.py:87-257 | after a document the graph has exactly the nodes and edges it had and those that the document's fields name, kind by kind |
| Slang.CachedAnswer | src/darkpulse/nlp/slang.py:164-208 | a cached answer is a prefix of the fresh one, equal to it if and only if the cached list is no shorter; threshold no lower and limit no higher suffice |
| Slang.EnlistKeepsIndex | src/darkpulse/nlp/slang.py:115-136 | adding keeps every live term listed once under its canonical |
| Slang.EnlistTidyExactly | src/darkpulse/nlp/slang.py:128-134 | the index stays free of stale listings exactly when the term keeps its canonical |
| Slang.StaleListing | src/darkpulse/nlp/slang.py:115-136 | a term added under one canonical and then another is still answered for the first |
| Slang.DelistKeepsIndex | src/darkpulse/nlp/slang.py:138-153 | removing keeps the index complete and, if it was, free of stale listings |
| Slang.EntriesExact | src/darkpulse/nlp/slang.py:308-311 | what a list of terms yields are its live entries, each once |
| Slang.SlangDictionary.AddEntry | src/darkpulse/nlp/slang.py:115-136 | the entry replaces the term's, the index is kept, and the cache is dropped |
| Slang.SlangDictionary.RemoveEntry | src/darkpulse/nlp/slang.py:138-153 | removes exactly a live term, from its list too, and drops the cache only then |
| Slang.SlangDictionary.UpdateEntry | src/darkpulse/nlp/slang.py:329-339 | updates exactly a live term as if it were added again |
| Slang.SlangDictionary.EntriesByCanonical | src/darkpulse/nlp/slang.py:308-311 | every entry of the canonical, none twice, and nothing else if no term ever changed canonical |
| Slang.SlangDictionary.FuzzyLookup | src/darkpulse/nlp/slang.py:164-208 | an exact entry always wins; without a cached line the answer is fresh; with one it is the stated prefix; no other line changes |
| RateLimit.WindowBound | src/darkpulse/api/rate_limit.py:83-102 | if acceptances sixty places apart are always more than 60 seconds apart, no 60-second window, wherever it starts, holds more than sixty |
| RateLimit.TrimmedCounts | src/darkpulse/api/rate_limit.py:93-102 | a trimmed bucket counts exactly the recent acceptances of the whole history |
| RateLimit.ForgettingStale | src/darkpulse/api/rate_limit.py:85-92 | forgetting an expired key loses nothing that counts |
| RateLimit.WriteLimiter.Sweep | src/darkpulse/api/rate_limit.py:85-92 | with too many keys the sweep drops exactly the expired ones, else nothing; buckets that stay are unchanged |
| RateLimit.WriteLimiter.ChargeMemory | src/darkpulse/api/rate_limit.py:83-102 | a request is allowed exactly when fewer than 60 were accepted in the last 60 seconds of the key's full history |
| RateLimit.NoWindowOverfull | src/darkpulse/api/rate_limit.py:83-102 | no 60-second window of any key ever holds more than 60 acceptances |
| Discovery.RecencyOrdered | src/darkpulse/nlp/auto_discovery.py:108-132 | the recency list is ordered by last observation |
| Discovery.RecencyDistinct | src/darkpulse/nlp/auto_discovery.py:108-132 | and holds every observed term once |
| Discovery.TrackedStep | src/darkpulse/nlp/auto_discovery.py:120-123 | moving the observed term to the end and evicting from the front gives the most recent distinct terms up to the cap |
| Discovery.CountIsSinceEntry | src/darkpulse/nlp/auto_discovery.py:120-123 | the specified count of a tracked term is the number of its observations since it last entered |
| Discovery.CountsStep | src/darkpulse/nlp/auto_discovery.py:120-123 | one observation changes that count as the counter does |
| Discovery.SlangAutoDiscovery.ObserveTerm | src/darkpulse/nlp/auto_discovery.py:108-132 | keeps tracked terms, counts and contexts as specified over the whole history; a refused term changes nothing |
| Discovery.SlangAutoDiscovery.CountTerm | src/darkpulse/nlp/auto_discovery.py:120-123 | the update of the counters |
| Discovery.ContextsSinceEntry | src/darkpulse/nlp/auto_discovery.py:125-132 | what is gathered for a held term is what came with it from the observation on with which it entered |
| Discovery.HoldingOrdered | src/darkpulse/nlp/auto_discovery.py:125-132 | terms with contexts are in the order of their entry, so eviction takes the one that entered first |
| Discovery.SlangAutoDiscovery.KeepContext | src/darkpulse/nlp/auto_discovery.py:125-132 | held terms are the specified ones, and each has the first ten clipped contexts since it entered |
| Discovery.SlangAutoDiscovery.EvictContexts | src/darkpulse/nlp/auto_discovery.py:131-132 | the terms that entered last stay, up to the cap, with their texts |
| Entities.OverlapIsSharedPosition | src/darkpulse/nlp/ner/__init__.py:219-225 | sharing a position is overlapping as intervals |
| Entities.OccupiedMeansOverlap | src/darkpulse/nlp/ner/__init__.py:219-225 | the occupied positions decide exactly whether an entity overlaps a kept one |
| Entities.StableSortCorrect | src/darkpulse/nlp/ner/__init__.py:215-227 | the two sorts order by their keys and keep the entities |
| Entities.StableSortKeepsTies | src/darkpulse/nlp/ner/__init__.py:215-227 | and keep the order of equal keys |
| Entities.KeptExact | src/darkpulse/nlp/ner/__init__.py:217-225 | the kept entities are disjoint, and each one left out overlaps a kept one that comes no later |
| Entities.MergeEntities | src/darkpulse/nlp/ner/__init__.py:206-227 | the loop over positions keeps what the interval rule keeps, in start order |
| Entities.MergedExact | src/darkpulse/nlp/ner/__init__.py:206-227 | the result is disjoint, in start order, from the input, and accounts for every entity left out |
| Telegram.WindowExact | src/darkpulse/ingestion/collectors/telegram.py:158-178 | a read returns messages above the cursor in id order, within the limit |
| Telegram.WindowCovers | src/darkpulse/ingestion/collectors/telegram.py:158-178 | and leaves none out below its last one |
| Telegram.CursorMoves | src/darkpulse/ingestion/collectors/telegram.py:88-116 | moving the cursor to a settled message increases it and leaves nothing unsettled behind |
| Telegram.TelegramCollector.Run | src/darkpulse/ingestion/collectors/telegram.py:81-133 | however a run ends, every dated message up to the cursor is blank or was processed, the cursor does not decrease, and health reflects the end |
| Telegram.CompletedRunAdvances | src/darkpulse/ingestion/collectors/telegram.py:81-178 | a finished run moves the cursor exactly when its window holds a dated message |
| Telegram.CompletedRunDrains | src/darkpulse/ingestion/collectors/telegram.py:81-178 | a finished run whose window was not full has settled the whole channel |
| Telegram.BlockedForEver | src/darkpulse/ingestion/collectors/telegram.py:81-178 | no run, completed or not, gets the cursor or a message past a full window of undated messages |
| Telegram.EnoughCompletions | src/darkpulse/ingestion/collectors/telegram.py:81-178 | without such a block, as many completed runs as there are messages left settle the channel |
| Telegram.HandedOverUnlessBlocked | src/darkpulse/ingestion/collectors/telegram.py:81-178 | over any sequence of runs with enough completed ones, everything is handed over if and only if nothing is blocked |
| Telegram.StuckForEver | src/darkpulse/ingestion/collectors/telegram.py:158-178 | for every limit, a channel of which no number of runs hands over the last message |
| Telegram.ChannelGrows | src/darkpulse/ingestion/collectors/telegram.py:158-178 | messages that arrive between runs keep it so |

## Left out

- The MongoDB, Redis and Neo4j drivers: a collection is a map with atomic single-document updates and the stated unique indexes, `_id`s increase in insertion order, and of lost acknowledgements only that of a publication is modelled.
- SHA-256 and `derive_intel_id`: free constructors, so collisions do not exist.
- Retention: alert and raw rows do not expire, so "at most one row" speaks about rows ever inserted.
- The NLP pipeline, safety policy and severity score: their results are parameters (`Analysis`, `accepted`, `score`).
- Alerts: case folding, white space and word characters are those of ASCII; the searched text is given.
- Queue: with one live processor, reading and writing the wait count is one step; `Effects` models it as two. Exact attempt bounds hold for one processor only, because row writes are not fenced by the lease.
- Effects: a backfill is its inserts one by one, of any stored list and record that match, in any order and number; a worker may drop a record for want of content at any time after its claim, which allows more runs than the code has; dedup keys are not part of it.
- Processor: a statement that raises has had no effect; `_run_loop` pacing, `_known_actors`, `_refresh_pipeline` and the payload of a snapshot.
- Ledger: payload verification and the lookup of single seals, which only compare hashes.
- Crawl: HTTP, Tor, HTML parsing and `urljoin`; links come resolved or malformed, and a page answers the same way throughout a crawl.
- Intel: parameter parsing; product, neighbourhood and text filters are one predicate on the record, and case folding happens before.
- Actors: the contents of base64 and JSON, of which only the length and the decoded key matter, and the other fields of a group (platform, dates, severity, products).
- Graph: `get_subgraph`, schema set-up and serialisers; relation names are upper-cased for ASCII letters.
- Slang: `decode_text`, `search` and `load_seed`; fuzzy scores are one fixed ranking per query and term list; lower-casing is for ASCII letters; callers that modify an entry object they were handed are not modelled.
- RateLimit: the Redis counter with its fixed windows, and the key derivation.
- Discovery: embeddings and `discover_candidates`; terms come lower-cased and stripped.
- Entities: the extractors.
- Telegram: the client, sessions and flood waits (one failure among others); the checkpoint store is the in-memory one, because the Redis one refuses a second save at version 0.
