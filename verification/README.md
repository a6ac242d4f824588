# ACTIT: a verified model of its ingestion protocol and dataset algorithms

ACTIT collects threat reports from external feeds, imports them durably and evaluates extraction models on
BIO-labelled datasets. This project models in Dafny the parts of it whose correctness spans several
functions, and proves what they promise:

- the durable external-ingestion protocol: claims with leases, publishing, batch import with a resume offset,
  acknowledgement at the Gateway last, failures, crashes, expired leases and retries;
- the construction of clean datasets: parsing and printing split files, remediation, the clean derivative,
  canonical groups, largest-remainder targets and greedy allocation;
- the meaning of BIO labels in three decoders, the canonicaliser, subword propagation and the metrics;
- four compact stateful algorithms: balanced sampling, the sliding-window rate limiter, child-row
  reconciliation and batch extraction.

Check it with `dafny verify dfyconfig.toml`, Dafny 4.11. Expensive lemmas start with a `hide` statement, which
only keeps definitions they do not need from the solver.

## How it is laid out

| File | What it holds |
|---|---|
| `RawItems.dfy`, `ImportRun.dfy` | stored items and sources; the change scan, the persist step, and calls of the import with batches that may fail |
| `Protocol.dfy`, `ProtocolSafety.dfy` | every committed step as an event; the invariant over all runs |
| `ProtocolInTime.dfy` | what holds in addition while no call outlives its lease |
| `ProtocolResults.dfy`, `ProtocolOverrun.dfy` | what follows; two runs in which a call outlives its lease |
| `ExportPages.dfy` | collecting an export page by page |
| `Ingestion.dfy` | the service as a class whose commits are exactly those events, and what one `process` call does |
| `Bio.dfy`, `Subword.dfy`, `Metrics.dfy` | decoders, transition check, canonicaliser; label alignment of word pieces; scores |
| `Sequences.dfy`, `Groups.dfy` | stable sorting, dictionaries of lists, grouping in order of first appearance |
| `SplitFiles.dfy`, `Remediation.dfy`, `CleanFiles.dfy`, `CleanSplits.dfy`, `CanonicalGroups.dfy` | the dataset construction steps |
| `Targets.dfy`, `Allocation.dfy`, `Placement.dfy`, `AllocateGroups.dfy`, `AllocationResults.dfy` | split sizes; reservations; general placement; the whole allocation; when it succeeds |
| `Sampling.dfy`, `RateLimit.dfy`, `ChildSync.dfy`, `BatchPipeline.dfy` | the compact algorithms |

Methods follow the loops of the source and are proved against specification functions; lemmas then say what
those functions mean. In the protocol any number of `process` calls may work on one operation: each has its
own object of the operation row, read with the claim and kept across commits (backend/app/db/database.py:48 turns
expiry on commit off), and a commit writes the columns in which that object changed. Time is a parameter that
never runs backwards, hashes and the components around the pipeline are function parameters, an exported dataset
is a fixed sequence of records with distinct (source, external id) keys, and scores, quotas and weights are exact.

## What the proofs found

- **A backlog export is acknowledged half imported.** `_run_external_records` says `processing_complete: False`
  only in the summary it returns, and `run_external_feed` replaces that summary's details with the durable
  ones, so the test in `process` never sees it. `RequeueBranchUnreachable` shows the requeue branch is dead,
  `WholeExportIff` gives the exact condition under which an acknowledged export is whole (interactive, or the
  rest fits one batch), `BacklogExportAcknowledgedHalfImported` is a concrete case. The comment at
  backend/app/services/external_ingestion_service.py:305-308 expects the backlog to be claimed again; the model
  follows the code.
- **A call that outlives its lease can move the offset back and count records twice.** Nothing a call commits is
  checked against its claim. What the Gateway was told stays true (`AcknowledgedMeansPersisted` needs no
  assumption on leases), but `OffsetGoesBack` and `RecordsCountedTwice` are runs with two calls on one operation,
  `OffsetGoesBackIff` and `CallCountsRightIff` say exactly when it happens, and `OffsetNeverDecreases`,
  `OneWorkerPerOperation` and the second half of `AccountingHolds` assume `InTime`: no call outlives its lease.
- **Batch boundaries can change the counts.** Creating or finding a source overwrites its type, and an item
  without a stored type is compared with that type. `BatchSizeIrrelevantIff`: batch sizes are invisible exactly
  for feeds in which each source name comes with one source type. Resuming with one batch size is faithful for
  every feed (`ResumeAtOneBatchSize`), with changing ones for those feeds (`ResumeEqualsUninterrupted`).
- **A second import of the same feed updates records that contradict their own document.** A stored row is
  compared through its document, a record through its own fields first; a record is recognised exactly when the
  two agree (`StoredIsUnchangedIff`), over a whole feed in `SecondImportRecognises`.
- **The two decoders disagree on odd prefixes** (neither `B` nor `I`) and **subword propagation splits
  entities whose label reopens**; `DecodersAgreeIff` and `PropagationPreservesIff` give the exact conditions,
  `DecodersDisagree` and `ReopeningSplits` an input each. Neither occurs on labels the parser accepts.
- **Allocation always fails for an entity type with fewer than three groups**, although reservation skips it
  silently; `AllocatesIff` gives the exact conditions of success, `TwoGroupsFail` an input.
- **Child rows never share a key**: the rows of an event start empty, so every synchronisation leaves exactly one
  row for each key (`AlwaysExact`). The loop over indicators and entities depends on it (`OneRowPerKeyIff`), and
  the unique constraints at backend/app/db/models.py:168 and :185 say the same; the loop over relationships,
  which have no constraint, would also repair duplicates (`RelationshipsExact`).
- **A limiter without capacity raises**: a request with a positive limit and window raises exactly when
  `max_buckets` is below one (`StopsIff`). Buckets are never empty, so the search for an empty one in eviction
  never succeeds (`BucketsTidy`).
- **Errors that cannot occur**: the quality-gate errors of `remediate` (without an expected label count) and of
  `build_clean_splits`, the "missing pipeline result" of `process_batch`, and
  "committed_operation_identity_invalid" of `process`.

## Model

| member | source | states |
|---|---|---|
| `RawItems.UnchangedIff` | backend/app/repositories/cti_repository.py:134-164 | a stored row counts as unchanged exactly when title, content, category, tags and score are the record's, and address, date and source type are, each read from the first place that has it |
| `RawItems.StoredIsUnchangedIff` | backend/app/repositories/cti_repository.py:166-185 | the row written for a record is recognised as that record exactly when the record agrees with its own document on address, date and source type |
| `RawItems.UndeclaredCopyFollowsSource` | backend/app/repositories/cti_repository.py:134-164 | an item stored without a source type counts as unchanged exactly while the source has the record's type |
| `ImportRun.GetOrCreateSources` | backend/app/repositories/cti_repository.py:50-72 | the sources a batch names exist afterwards, each with the type of the first record that names it, others as before |
| `ImportRun.ExternalBatchChanges` | backend/app/services/pipeline_service.py:558-589 | the scan keeps exactly the new or changed records in order and counts the others, judged after the batch's sources were noted |
| `ImportRun.PersistExternalBatch` | backend/app/services/pipeline_service.py:591-636 | every record is judged against the rows before the batch: one not judged unchanged leaves its title, content and document in the row of its key, every other row stays, and created, updated, unchanged, stored and failed count the records they name |
| `ImportRun.SecondImportRecognises` | backend/app/services/pipeline_service.py:558-636 | a feed imported twice into a store without its records: the second import creates nothing, finds exactly the records unchanged that agree with their own documents, updates the others, and every row still holds its record |
| `ImportRun.ResumeAtOneBatchSize` | backend/app/services/pipeline_service.py:410-528 | for every feed: any series of calls with one batch size, any call limits and any rolled-back batches that reaches the end leaves the store, offset and totals of one uninterrupted call |
| `ImportRun.ResumeEqualsUninterrupted` | backend/app/services/pipeline_service.py:410-528 | for feeds in which each source has one type: the same with batch sizes that change from call to call |
| `ImportRun.BatchSizeIrrelevantIff` | backend/app/services/pipeline_service.py:436-492 | batch sizes are invisible in the totals exactly when each source name of the feed has one source type |
| `ProtocolSafety.EventKeepsInv` | backend/app/services/external_ingestion_service.py:92-234 | the protocol invariant survives every enabled event of any call: claims, also of operations another call still works on, publishing, batches, failures, crashes, expired leases, retries |
| `ProtocolSafety.RunKeepsInv` | backend/app/services/external_ingestion_service.py:92-234 | the invariant holds in every reachable state of every interleaving |
| `ProtocolSafety.PersistBatchSettles` | backend/app/services/pipeline_service.py:436-492 | one batch commit of any call, with or without a live claim, leaves the export persisted up to the batch's end |
| `ProtocolSafety.MergeEarned` | backend/app/db/database.py:48 | whatever other sessions wrote to the row, committing the changed columns of an object that claims no more than was reached leaves a row that does not either |
| `ProtocolSafety.ClaimKeepsInv` | backend/app/services/external_ingestion_service.py:321-337 | claiming keeps the invariant, also while an earlier call still runs |
| `ProtocolInTime.EventKeepsSole` | backend/app/services/external_ingestion_service.py:321-337 | if no call outlives its lease, every event keeps each call alone on its operation, with its object equal to the row and the run in step |
| `ProtocolInTime.InTimeMeansSole` | backend/app/services/external_ingestion_service.py:321-337 | the same over every run |
| `ProtocolResults.AcknowledgedMeansPersisted` | backend/app/services/external_ingestion_service.py:92-187 | in every run, also with several calls on one operation, an interactive operation the Gateway was told about has its whole export persisted: each record has a row with its title and content |
| `ProtocolResults.RequeueBranchUnreachable` | backend/app/services/external_ingestion_service.py:147-154 | no reachable state takes the branch for incomplete processing |
| `ProtocolResults.AckIdentityAlwaysValid` | backend/app/services/external_ingestion_service.py:163-166 | the missing-identity error before the acknowledgement cannot occur |
| `ProtocolResults.AccountingHolds` | backend/app/services/pipeline_service.py:461-492 | in every reachable state the offset lies in the export and the records before it are persisted; if no call outlives its lease, the counts add up to the offset, created plus updated equals stored plus failed, and operation and run agree |
| `ProtocolResults.CallCountsRightIff` | backend/app/services/pipeline_service.py:439-491 | in every run the counts a call commits with a batch add up to its offset exactly when the counts it found in the run row added up to the offset it had from its claim |
| `ProtocolResults.OffsetNeverDecreases` | backend/app/services/external_ingestion_service.py:116-127 | along every run in which no call outlives its lease the resume offset never goes back |
| `ProtocolResults.OffsetGoesBackIff` | backend/app/services/external_ingestion_service.py:116-127 | in every run an event moves the offset of an operation back exactly when it is a batch commit of a call that has not come as far as the row |
| `ProtocolOverrun.OffsetGoesBack` | backend/app/services/external_ingestion_service.py:116-127 | a run with a call that outlives its lease in which the offset goes back from 2 to 1 |
| `ProtocolOverrun.RecordsCountedTwice` | backend/app/services/pipeline_service.py:439-491 | a run with a call that outlives its lease that counts three records for an export of two |
| `ProtocolResults.RetryNeverAdvances` | backend/app/services/external_ingestion_service.py:247-256 | in every run retry returns an operation to the queue or to a state it had durably reached |
| `ProtocolResults.InteractiveFirst` | backend/app/services/external_ingestion_service.py:305-320 | in every run, before a worker commits a batch of a backlog operation it claimed that operation when no interactive one could be claimed, and has committed no other batch since |
| `ProtocolResults.OneWorkerPerOperation` | backend/app/services/external_ingestion_service.py:321-337 | if no call outlives its lease, two workers never hold one operation |
| `ProtocolResults.OneBacklogBatchPerClaim` | backend/app/services/external_ingestion_service.py:128-135 | in every run, between two backlog batches of one worker lies a new claim |
| `ProtocolResults.ClaimsInOrder` | backend/app/services/external_ingestion_service.py:295-337 | in every run a claim takes a waiting operation before which no waiting one comes by larger priority, then earlier creation, then smaller id, and gives it claim, lease of 60 seconds to a day and one more attempt |
| `ProtocolResults.FailureMeans` | backend/app/services/external_ingestion_service.py:174-187 | which errors leave an operation to a retry and which end it, and what a failure does not touch |
| `ProtocolResults.FailureCode` | backend/app/services/external_ingestion_service.py:259-269 | which error code is recorded for which error at which stage |
| `ProtocolResults.RetryResumes` | backend/app/services/external_ingestion_service.py:247-256 | a retry after a failure resumes at the stage reached, and from the queue where no stage to resume was reached |
| `ProtocolResults.RunEnds` | backend/app/services/pipeline_service.py:502-529 | a run ends completed, partial or failed by what failed and what was stored, with all records collected |
| `ProtocolResults.RunReportsBatch` | backend/app/services/pipeline_service.py:470-492 | after a batch commit the run reports the offset, counts and number of batches committed |
| `ProtocolResults.RunBreaksOff` | backend/app/services/pipeline_service.py:530-556 | a call broken off leaves a failed run with the whole batches it committed; operation and rows stay |
| `Ingestion.WholeExportIff` | backend/app/services/pipeline_service.py:271-279 | an undisturbed call always acknowledges, and has imported the whole export exactly when it is interactive or the rest fits one batch |
| `Ingestion.BacklogExportAcknowledgedHalfImported` | backend/app/services/pipeline_service.py:493-501 | a concrete backlog export that ends completed or partial and acknowledged with half its records imported |
| `Ingestion.FairCallReaches` | backend/app/services/pipeline_service.py:436-501 | how far an undisturbed call imports |
| `Ingestion.FairCallCompletes` | backend/app/services/external_ingestion_service.py:92-174 | an undisturbed call ends acknowledged and released: partial if a record failed, completed otherwise, with the export's announced total acknowledged |
| `Ingestion.PublishFails` | backend/app/services/external_ingestion_service.py:189-216 | pages of another export end the operation, pages that change or run out of bounds and an answer without an etag leave it to a retry; nothing is imported or acknowledged |
| `Ingestion.TwoCommitsAreOneBatch` | backend/app/services/pipeline_service.py:558-636 | the scan commit and the batch commit together are one batch of the import specification |
| `Ingestion.ExternalIngestionService.constructor` | backend/app/services/external_ingestion_service.py:43-46 | an empty database in a state the protocol starts from |
| `Ingestion.ExternalIngestionService.Enqueue` | backend/app/services/external_ingestion_service.py:73-80 | a new interactive operation, and nothing else changes |
| `Ingestion.ExternalIngestionService.AdoptPublished` | backend/app/services/external_ingestion_service.py:356-371 | an export the Gateway has becomes a published backlog operation, unless it has no checkpoint |
| `Ingestion.ExternalIngestionService.RetryFailed` | backend/app/api/v1/router.py:1142-1151 | an operation that failed retryably goes back to the state of its stage, any other stays |
| `Ingestion.ExternalIngestionService.Commit` | backend/app/services/external_ingestion_service.py:92-187 | a commit performs exactly one event of the protocol |
| `Ingestion.ExternalIngestionService.Fail` | backend/app/services/external_ingestion_service.py:218-227 | the row is failed with the classified code and released; nothing else changes |
| `Ingestion.ExternalIngestionService.PublishExactExport` | backend/app/services/external_ingestion_service.py:189-216 | the size of the collected export and the checkpoint are committed, or the error of the paging, of the upload or of its answer is returned and nothing changes |
| `Ingestion.ExternalIngestionService.CompareBatch` | backend/app/services/pipeline_service.py:438-441 | the scan of one batch, committed on its own |
| `Ingestion.ExternalIngestionService.CommitBatch` | backend/app/services/pipeline_service.py:446-492 | rows, run counters and operation progress change in one commit |
| `Ingestion.ExternalIngestionService.OneBatch` | backend/app/services/pipeline_service.py:436-501 | one turn of the loop: rolled back before or after the scan, or committed and possibly the last of the call |
| `Ingestion.ExternalIngestionService.RunExternalRecords` | backend/app/services/pipeline_service.py:400-556 | the whole import call computes the call specification on the durable state |
| `Ingestion.ExternalIngestionService.ImportBatches` | backend/app/services/pipeline_service.py:436-501 | the batch loop reaches the outcome of the call from any intermediate state |
| `Ingestion.ExternalIngestionService.Import` | backend/app/services/external_ingestion_service.py:100-156 | the import part of `process` |
| `Ingestion.ExternalIngestionService.RecordAcknowledged` | backend/app/services/external_ingestion_service.py:169-173 | the row after the acknowledgement is recorded, still claimed |
| `Ingestion.ExternalIngestionService.ReleaseClaim` | backend/app/services/external_ingestion_service.py:229-233 | the claim and lease are dropped in a commit of their own |
| `Ingestion.ExternalIngestionService.Acknowledge` | backend/app/services/external_ingestion_service.py:157-174 | the Gateway is told after the commit; then the row is completed or partial and released, or failed, also when the Gateway had recorded the acknowledgement |
| `Ingestion.ExternalIngestionService.Process` | backend/app/services/external_ingestion_service.py:92-187 | one call leaves the row, store and acknowledgement the specification gives, in every state it can be called in and whatever fails |
| `Ingestion.ExternalIngestionService.ClaimNext` | backend/app/services/external_ingestion_service.py:295-337 | no waiting operation has a larger priority than the claimed one, none of equal priority was created earlier, none equal in both has a smaller id; it gets claim and lease; nothing is claimed exactly when nothing waits |
| `Ingestion.ExternalIngestionService.Drain` | backend/app/services/external_ingestion_service.py:272-293 | without arrivals or failures every available operation ends in a terminal state and the loop stops |
| `Ingestion.ExternalIngestionService.ServiceKeepsPromises` | backend/app/services/external_ingestion_service.py:92-187 | in every state the service's methods reach, acknowledged interactive operations are fully persisted and all counts add up |
| `ExportPages.CollectExport` | backend/app/services/external_ingestion_service.py:194-204 | the paging loop with its three errors, for any answers of the server |
| `ExportPages.BareIff` | backend/app/services/external_ingestion_service.py:197 | a digest is compared without its optional prefix |
| `ExportPages.WholeExportCollectedIff` | backend/app/services/external_ingestion_service.py:194-204 | a paged export is collected whole and in order exactly when it has at most 20,250 records |
| `ExportPages.CollectedIsOneExport` | backend/app/services/external_ingestion_service.py:194-204 | what is collected is the items of the pages asked for, in order; every one of them names this export and announces the same total, which only the last one reaches |
| `Bio.AcceptedIff` | ml/remediation/dnrti_clean_v1.py:17 | a label is accepted exactly when it is "O", or "B-" or "I-" followed by something without a line break |
| `Bio.SpansMeaning` | ml/remediation/dnrti_clean_v1.py:159-176 | the decoded list is exactly the maximal stretches of one type, in order |
| `Bio.ExtractBioEntities` | ml/common/metrics.py:9-46 | the metric decoder returns the entities of its reading of the labels |
| `Bio.EntitySpans` | ml/remediation/dnrti_clean_v1.py:159-176 | the remediation decoder returns the span list, and raises exactly on a label it cannot split |
| `Bio.InvalidBioTransitions` | ml/remediation/dnrti_clean_v1.py:145-156 | the reported positions are the continuations that follow no label of their type |
| `Bio.CanonicalizeBio` | ml/evaluation/analyze_dnrti_clean_v1_root_cause.py:109-120 | the loop over its own output equals the position-wise canonical form of the input |
| `Bio.DecodersAgree` | ml/common/metrics.py:9-46 | both decoders find the same entities on accepted labels |
| `Bio.DecodersAgreeIff` | ml/common/metrics.py:25-46 | on all splittable labels they agree exactly when no odd prefix continues the type before it |
| `Bio.DecodersDisagree` | ml/common/metrics.py:25-46 | labels on which one decoder reads one entity and the other two |
| `Bio.EncodeDecoded` | ml/evaluation/analyze_dnrti_clean_v1_root_cause.py:109-120 | writing the decoded spans back gives the canonical tags |
| `Bio.DecodeEncoded` | ml/remediation/dnrti_clean_v1.py:159-176 | decoding what was encoded returns every ordered list of spans |
| `Bio.OrderedUnique` | ml/remediation/dnrti_clean_v1.py:159-176 | an ordered span list is determined by its members |
| `Bio.CanonicalIsEncoding` | ml/evaluation/analyze_dnrti_clean_v1_root_cause.py:109-120 | canonical labels are the entities encoded as labels |
| `Bio.CanonicalKeepsEntities` | ml/evaluation/analyze_dnrti_clean_v1_root_cause.py:109-120 | canonicalising keeps the entities |
| `Bio.CanonicalChangesDefects` | ml/remediation/dnrti_clean_v1.py:145-156 | it changes exactly the reported positions, on all labels |
| `Bio.CanonicalIdempotent` | ml/evaluation/analyze_dnrti_clean_v1_root_cause.py:109-120 | it is idempotent and leaves no defect |
| `Bio.CanonicalEqualIff` | ml/evaluation/analyze_dnrti_clean_v1_root_cause.py:109-120 | equal canonical forms mean equal entities and conversely |
| `Subword.AlignLabels` | ml/training/bert_dnrti_clean_v1.py:108-130 | loss and word label of every piece, by what the piece and the one before carry |
| `Subword.ContinuationIs` | ml/training/bert_dnrti_clean_v1.py:83-86 | a "B-" label continues as "I-" with the same type, any other label as itself |
| `Subword.ContinuationReads` | ml/training/bert_dnrti_clean_v1.py:83-86 | a continued label keeps its type and continues unless it reopens |
| `Subword.PropagationPreservesIff` | ml/training/bert_dnrti_clean_v1.py:108-130 | the piece entities are the word entities with words replaced by piece ranges, exactly when no reopening label has several pieces |
| `Subword.ReopeningSplits` | ml/training/bert_dnrti_clean_v1.py:108-130 | a label and two pieces for which one entity becomes two |
| `Subword.PropagationPreserves` | ml/training/bert_dnrti_clean_v1.py:108-130 | this always holds for accepted labels |
| `Subword.WordLabelsReadBack` | ml/training/bert_dnrti_clean_v1.py:108-130 | the unmasked word labels are the labels of the covered words in order |
| `Metrics.EntityMicroMetrics` | ml/common/metrics.py:49-75 | true and false positives and false negatives of the entity sets of all zipped sentences; precision is the share of true positives among predicted entities, recall among true ones, and F1 their harmonic mean, zero where there is nothing to divide |
| `Metrics.MicroTotals` | ml/common/metrics.py:49-75 | tp plus fp is the number of predicted entities, tp plus fn that of true ones |
| `Metrics.EntityMetricsByType` | ml/common/metrics.py:78-113 | the types that occur, in name order, each with precision, recall, F1, support and counts of its own entities; a type without an entry has no counts |
| `Metrics.TypesAddUp` | ml/common/metrics.py:78-113 | per-type counts add up to the micro counts |
| `Metrics.F1Exact` | ml/common/metrics.py:64-66 | F1 is 2tp over 2tp plus fp plus fn |
| `Metrics.F1PerfectIff` | ml/common/metrics.py:64-66 | F1 is one exactly with a true positive and no error |
| `Metrics.SwapExchanges` | ml/common/metrics.py:49-75 | swapping truth and prediction swaps precision and recall and keeps F1 |
| `Metrics.CanonicalScoresSame` | ml/common/metrics.py:49-75 | canonicalising both sides changes no count |
| `Metrics.TokenMicroMetrics` | ml/common/metrics.py:162-213 | the token counts, and the error for unequal lengths exactly then |
| `Metrics.TokenCountsBalance` | ml/common/metrics.py:190-205 | tp plus fn is the support, tp plus fp the predicted positives, every token is evaluated once, for any excluded labels |
| `Sequences.StringLeIff` | ml/training/dnrti_clean_v2.py:92-93 | the order of names: a prefix comes first, otherwise the first character that differs decides |
| `Sequences.SortAscends` | ml/training/dnrti_clean_v2.py:92-93 | sorting by a total preorder gives an ascending list |
| `Sequences.SortStable` | ml/training/dnrti_clean_v2.py:92-93 | elements that tie keep their order |
| `Sequences.SortKeepsDistinct` | ml/training/dnrti_clean_v2.py:92-93 | sorting keeps length and distinctness |
| `SplitFiles.WordsJoined` | ml/remediation/dnrti_clean_v1.py:103-117 | splitting on white space undoes joining words with a blank |
| `SplitFiles.PrintedReads` | ml/remediation/dnrti_clean_v1.py:421-431 | a printed token line reads back |
| `SplitFiles.ReadMeans` | ml/remediation/dnrti_clean_v1.py:95-133 | what a line is by its words: blank, without token, with a label that is not accepted, or a token line whose last word is the label |
| `SplitFiles.ParseSplit` | ml/remediation/dnrti_clean_v1.py:58-142 | the parser with its buffers and flags, line by line |
| `SplitFiles.ParseReports` | ml/remediation/dnrti_clean_v1.py:95-133 | every malformed line is reported with number and kind, in order, and no other; parseable and malformed lines are the lines that are not blank |
| `SplitFiles.WriteSplit` | ml/remediation/dnrti_clean_v1.py:421-431 | the printed lines |
| `SplitFiles.ParseIsByBlock` | ml/remediation/dnrti_clean_v1.py:70-142 | each block of lines is judged on its own: good blocks become numbered sentences, the others are excluded |
| `SplitFiles.BlocksConserved` | ml/remediation/dnrti_clean_v1.py:70-142 | raw blocks are valid sentences plus excluded blocks on every input |
| `SplitFiles.ParsePrinted` | ml/remediation/dnrti_clean_v1.py:421-431 | parsing what was printed returns the same tokens and labels with nothing malformed, for every printable list |
| `SplitFiles.ParsedIsPrintable` | ml/remediation/dnrti_clean_v1.py:58-142 | the parser returns printable sentences only, well numbered, and printing and parsing them again changes nothing |
| `Groups.GroupBy` | ml/remediation/dnrti_clean_v1.py:296-299 | keys in order of first appearance, each with its occurrences in order |
| `Remediation.CountRemoved` | ml/remediation/dnrti_clean_v1.py:341-348 | the inner loop counts occurrences in other splits and repeats |
| `Remediation.RemediateGroup` | ml/remediation/dnrti_clean_v1.py:317-348 | what one group adds to the audit and to the retained lists |
| `Remediation.Remediate` | ml/remediation/dnrti_clean_v1.py:293-418 | the retained lists are the kept sentences of each split, the audit the fates of all occurrences; it raises exactly when an expected label count is missed |
| `Remediation.SortedIsKept` | ml/remediation/dnrti_clean_v1.py:350-351 | sorting what the group loop collected gives the kept sentences in source order |
| `Remediation.GatesPass` | ml/remediation/dnrti_clean_v1.py:353-417 | every gate but the label count passes on every input |
| `Remediation.OccurrencesConserved` | ml/remediation/dnrti_clean_v1.py:377-392 | every occurrence is retained or in exactly one removal class |
| `Remediation.FateMeans` | ml/remediation/dnrti_clean_v1.py:317-348 | the class of every occurrence: labels contradicted by another occurrence, invalid transitions, a copy in test or for a train copy in valid, an earlier copy in its split, or kept |
| `Remediation.RetainedIff` | ml/remediation/dnrti_clean_v1.py:317-351 | a sentence is retained, in its own split only, exactly when none of the four removals applies |
| `Remediation.GatesMean` | ml/remediation/dnrti_clean_v1.py:353-417 | all gates pass exactly when no two splits share a token sequence, equal tokens have equal labels, no transition is invalid and the expected number of labels occurs |
| `Remediation.LabelsAre` | ml/remediation/dnrti_clean_v1.py:354 | the labels counted are those of the sentences |
| `Remediation.CleanGroupKeptOnce` | ml/remediation/dnrti_clean_v1.py:331-338 | an occurrence of a text with one valid labelling is kept exactly when it is in test if the text occurs in test, else in valid if it occurs there, else in train, and is the first there |
| `Remediation.RemediationIdempotent` | ml/remediation/dnrti_clean_v1.py:293-418 | remediating the result changes nothing |
| `CleanFiles.ReadWellFormed` | ml/remediation/dnrti_clean_v1.py:58-142 | what the parser returns is what the remediation asks for |
| `CleanFiles.DerivedFilesAreClean` | ml/remediation/dnrti_clean_v1.py:293-431 | for any three files, the derived files parse into the retained sentences with nothing malformed, and remediating them again removes nothing |
| `CleanSplits.BuildCleanSplits` | ml/preprocessing/clean_dnrti.py:73-151 | it never raises, returns the first occurrence of every unambiguous text in source order, and accounts for every occurrence |
| `CleanSplits.ChosenIsClean` | ml/preprocessing/clean_dnrti.py:91-114 | choosing from the earliest split of each group is keeping global first occurrences |
| `CleanSplits.AuditMeans` | ml/common/dnrti.py:240-303 | the audit passes exactly when no two splits share a text, equal texts of a split have equal labels and nothing is malformed |
| `CleanSplits.AuditPasses` | ml/common/dnrti.py:240-303 | the output passes every gate of the integrity audit |
| `CleanSplits.NothingLost` | ml/preprocessing/clean_dnrti.py:91-114 | every occurrence is retained, a duplicate or conflicting |
| `CanonicalGroups.FindCanonicalGroups` | ml/training/dnrti_clean_v2.py:47-78 | the groups ascend by hash, and retained, conflicting, invalid and duplicate occurrences add up to all occurrences |
| `CanonicalGroups.QuarantineMeans` | ml/training/dnrti_clean_v2.py:55-78 | the conflicting occurrences are those another one contradicts, the invalid ones the others with an invalid transition |
| `CanonicalGroups.EntityTypesAre` | ml/training/dnrti_clean_v2.py:39-40 | the entity types of a sentence are the types of its entities, each once, in name order |
| `CanonicalGroups.LengthBinIff` | ml/training/dnrti_clean_v2.py:43-44 | the four length bins by their bounds |
| `CanonicalGroups.GroupSays` | ml/training/dnrti_clean_v2.py:81-88 | the id, entity types and length bin the allocation sees for each sentence |
| `CanonicalGroups.CanonicalGroupsUnique` | ml/training/dnrti_clean_v2.py:47-78 | canonical sentences are unambiguous, without defects, no two share their tokens, and every sentence of an unambiguous group without defects is represented by the group's first occurrence |
| `CanonicalGroups.CanonicalIdsUnique` | ml/training/dnrti_clean_v2.py:84 | with a hash that tells tokens apart the allocation gets unique ids |
| `Targets.ComputeTargets` | ml/training/dnrti_clean_v2.py:29-36 | the counting loop computes the largest-remainder targets |
| `Targets.SourceKeepsItsSizes` | ml/training/dnrti_clean_v2.py:22-36 | the sizes of the source dataset are its own targets |
| `Targets.TargetsAddUp` | ml/training/dnrti_clean_v2.py:29-36 | the targets add up to the total |
| `Targets.TargetsRoundQuotas` | ml/training/dnrti_clean_v2.py:29-36 | each target is its quota rounded down or up, less than one off |
| `Targets.ExtraGoesToLargest` | ml/training/dnrti_clean_v2.py:33-35 | a split rounded up has a larger remainder than one rounded down, or an equal one and a smaller name |
| `Targets.TargetsDeviateLeast` | ml/training/dnrti_clean_v2.py:29-36 | no other integer sizes with that total deviate less from the quotas |
| `Allocation.RepeatsShorten` | ml/training/dnrti_clean_v2.py:84 | the index is shorter than the list exactly when an id repeats |
| `Allocation.ReserveCovers` | ml/training/dnrti_clean_v2.py:91-104 | after an entity's reservations all splits considered have one of its groups, and no earlier reservation moved |
| `Allocation.RefusedIff` | ml/training/dnrti_clean_v2.py:96-102 | an entity is refused exactly when more splits lack it than it has unassigned groups |
| `Placement.NotPreferred` | ml/training/dnrti_clean_v2.py:116-120 | the selection key orders splits so that the first maximum is a maximum |
| `Placement.PlacedWhereRoomIs` | ml/training/dnrti_clean_v2.py:114-121 | a group goes to an eligible split with the most room for its stratum, among those with the most room in all, among those with the largest tie hash; the counts of that split grow by one |
| `Placement.PlacingOrder` | ml/training/dnrti_clean_v2.py:105-112 | strata are placed by length bin and then entity types, the groups of a stratum by hash; a stratum holds the unreserved groups with its types and bin |
| `Placement.PlaceStep` | ml/training/dnrti_clean_v2.py:114-121 | one placement keeps the counts exact and, while a group is left, never meets full splits from a start within the targets |
| `Placement.StrataPlaced` | ml/training/dnrti_clean_v2.py:105-121 | after any number of strata exactly the reserved groups and theirs are assigned |
| `AllocateGroups.GroupByEntity` | ml/training/dnrti_clean_v2.py:85-88 | the groups of every entity type |
| `AllocateGroups.ReserveCoverage` | ml/training/dnrti_clean_v2.py:89-104 | the reservation loops, with the refusal they raise |
| `AllocateGroups.GroupByStratum` | ml/training/dnrti_clean_v2.py:105-108 | the unreserved groups of every stratum |
| `AllocateGroups.CountAssigned` | ml/training/dnrti_clean_v2.py:109 | the counter of an assignment |
| `AllocateGroups.PlaceGroups` | ml/training/dnrti_clean_v2.py:110-121 | the placement loops over ordered strata and members |
| `AllocateGroups.AllocateGroups` | ml/training/dnrti_clean_v2.py:81-142 | the whole allocation with its three errors |
| `AllocationResults.EveryIdPlaced` | ml/training/dnrti_clean_v2.py:105-121 | every group is placed whatever the reservations, and none moves |
| `AllocationResults.CountsExactIff` | ml/training/dnrti_clean_v2.py:110-123 | the counts end equal to the targets exactly when ids are unique and the reservations stay within the targets, and then the fallback is never used |
| `AllocationResults.EnoughForEveryEntity` | ml/training/dnrti_clean_v2.py:122-123 | with targets of at least the number of entity types the second error cannot occur |
| `AllocationResults.AllocatesIff` | ml/training/dnrti_clean_v2.py:81-142 | success exactly when ids are unique, all reservations succeed within the targets, and every entity type has three groups |
| `AllocationResults.TwoGroupsFail` | ml/training/dnrti_clean_v2.py:91-135 | two groups with one entity type: nothing is refused, the sizes come out right, and the allocation raises |
| `AllocationResults.AllocatedParts` | ml/training/dnrti_clean_v2.py:124-142 | a success puts every group in exactly one split, in id order, with exact sizes and all entity types in every split |
| `AllocationResults.StratumDividedExactly` | ml/training/dnrti_clean_v2.py:110-121 | while every split has room for it, a stratum is divided exactly by its own largest-remainder targets |
| `AllocationResults.ReservedByHash` | ml/training/dnrti_clean_v2.py:91-104 | a split that lacks an entity gets the unassigned group of it with the least hash, and the assignment stays when the split has one |
| `AllocationResults.RarestReservedFirst` | ml/training/dnrti_clean_v2.py:91 | entities are reserved in order of the number of their groups, equally rare ones by name |
| `Sampling.Draw` | ml/evaluation/cti_sampling.py:80-89 | the round-robin loop stands after some full rounds and some groups, with min(size, total) items |
| `Sampling.DealtInTurns` | ml/evaluation/cti_sampling.py:80-89 | what was dealt are the occurring turns before the stage reached, each once, in order of rank and then group |
| `Sampling.SampleInTurns` | ml/evaluation/cti_sampling.py:72-89 | strata are ordered by seeded hash and name, documents of a stratum by seeded hash and event id, and the sample is the first turns of that deal |
| `Sampling.DealtPrefix` | ml/evaluation/cti_sampling.py:80-89 | every stage of the draw is a prefix of the whole deal |
| `Sampling.DealIsAll` | ml/evaluation/cti_sampling.py:80-89 | the whole deal is a rearrangement of the groups |
| `Sampling.FindRepresentatives` | ml/evaluation/cti_sampling.py:62-64 | the first candidate of each dedup hash by event id |
| `Sampling.RepresentativesLeast` | ml/evaluation/cti_sampling.py:62-64 | every candidate has a representative with its hash and no larger event id |
| `Sampling.StratifyRepresentatives` | ml/evaluation/cti_sampling.py:65-67 | the strata with their members |
| `Sampling.SelectSample` | ml/evaluation/cti_sampling.py:51-114 | it refuses exactly for a size outside 1 to 500, an empty seed, no candidate, or fewer places than strata; otherwise the sample, and for every stratum its population, its selected number, and probability and weight as their quotients without a division by zero |
| `Sampling.SampleDistinct` | ml/evaluation/cti_sampling.py:80-89 | exactly min(size, unique) distinct representatives |
| `Sampling.SamplePrefix` | ml/evaluation/cti_sampling.py:80-89 | the sample of size k is a prefix of that of size k + 1 |
| `Sampling.SampleBalanced` | ml/evaluation/cti_sampling.py:80-89 | a stratum that is not exhausted is within one of every other |
| `Sampling.WeightsAddUp` | ml/evaluation/cti_sampling.py:105-111 | the weights over the sample add up to the number of unique documents |
| `RateLimit.SlidingWindowRateLimiter.constructor` | backend/app/core/rate_limit.py:19-28 | no buckets |
| `RateLimit.SlidingWindowRateLimiter.MakeRoom` | backend/app/core/rate_limit.py:53-57 | the victim is dropped when full, an empty dictionary without capacity is the error |
| `RateLimit.SlidingWindowRateLimiter.Prune` | backend/app/core/rate_limit.py:41-42 | expired entries leave one bucket |
| `RateLimit.SlidingWindowRateLimiter.ConsumeAt` | backend/app/core/rate_limit.py:30-46 | new state and reply of a request |
| `RateLimit.SlidingWindowRateLimiter.ClearKeys` | backend/app/core/rate_limit.py:48-51 | the named keys are gone |
| `RateLimit.ExpireIsRecent` | backend/app/core/rate_limit.py:41-42 | on a rising bucket dropping from the left is filtering by the window |
| `RateLimit.RunRefines` | backend/app/core/rate_limit.py:30-57 | over every run with a clock that never runs backwards and fixed limit and window per key, all replies equal those of a limiter that keeps every admission of the keys it holds; `RateLimit.AdmittedIff` and `RateLimit.EvictsEarliest` say what these are |
| `RateLimit.BucketsTidy` | backend/app/core/rate_limit.py:53-57 | in every run buckets are bounded and never empty, so eviction drops the earliest inserted key |
| `RateLimit.WithoutKeepsOrder` | backend/app/core/rate_limit.py:48-57 | removing a key leaves the others in order |
| `RateLimit.OrderIsInsertion` | backend/app/core/rate_limit.py:30-57 | in every run the keys stand in the order of the requests that last inserted them |
| `RateLimit.EvictsEarliest` | backend/app/core/rate_limit.py:53-57 | in every run the key dropped was inserted by the earliest request of all keys present |
| `RateLimit.AdmittedIff` | backend/app/core/rate_limit.py:30-46 | in every run a request is admitted exactly when fewer than the limit of the admissions of its key, since the key was last dropped, lie in the window |
| `RateLimit.RejectedIff` | backend/app/core/rate_limit.py:30-34 | in every run a request is rejected as an error exactly when limit or window is not positive, and then nothing changes |
| `RateLimit.StopsIff` | backend/app/core/rate_limit.py:30-57 | after every run a request with a positive limit and window raises StopIteration exactly when max_buckets is below one |
| `RateLimit.WaitIsLeast` | backend/app/core/rate_limit.py:43-44 | a quiet refused client is admitted after m whole seconds exactly when m is at least the wait |
| `ChildSync.SyncRows` | backend/app/repositories/cti_repository.py:232-269 | the rows left, created and rewritten by indicator and entity synchronisation, by identity |
| `ChildSync.RemoveStale` | backend/app/repositories/cti_repository.py:250-251 | exactly the rows left in the dictionary are removed, in place |
| `ChildSync.UpdateRow` | backend/app/repositories/cti_repository.py:240-249 | a found row is rewritten in place and leaves the dictionary |
| `ChildSync.CreateRow` | backend/app/repositories/cti_repository.py:242-246 | a fresh row is appended |
| `ChildSync.SyncRelationships` | backend/app/repositories/cti_repository.py:271-295 | the same for relationships, whose dictionary lists all rows of a key |
| `ChildSync.OneRowPerKeyIff` | backend/app/repositories/cti_repository.py:232-269 | one row for each key and no other row, exactly when stored rows had distinct keys |
| `ChildSync.AlwaysExact` | backend/app/repositories/cti_repository.py:187-295 | from an event's creation on its rows never share a key, and every synchronisation leaves one row for each key and no other row |
| `ChildSync.RelationshipsExact` | backend/app/repositories/cti_repository.py:271-295 | relationships end exact from any start |
| `ChildSync.SecondSyncKeeps` | backend/app/repositories/cti_repository.py:232-295 | from exact rows a synchronisation with the same keys creates and removes nothing |
| `ChildSync.SyncRowsTwice` | backend/app/repositories/cti_repository.py:232-266 | the same object synchronised twice: the second time leaves the same rows, creates none, and every payload is the one written first |
| `ChildSync.SyncRelationshipsTwice` | backend/app/repositories/cti_repository.py:268-295 | the same for relationships, from any rows |
| `ChildSync.SurvivingRowsKept` | backend/app/repositories/cti_repository.py:232-295 | of a surviving key the last row stays the same row, and with distinct keys every row does |
| `BatchPipeline.ExternalCTIPipeline.constructor` | backend/app/pipeline/orchestrator.py:48-62 | the components and the duplicate memory to start from |
| `BatchPipeline.ExternalCTIPipeline.ProcessOne` | backend/app/pipeline/orchestrator.py:118-123 | the object of one record, with what each answer of the components makes of it |
| `BatchPipeline.ExternalCTIPipeline.ExtractAll` | backend/app/pipeline/orchestrator.py:81-100 | one result for every text, equal to single extraction when the batch extractor agrees with it, also through the fallback |
| `BatchPipeline.ExternalCTIPipeline.FinishPending` | backend/app/pipeline/orchestrator.py:102-116 | every waiting record gets its object and no result is missing |
| `BatchPipeline.ExternalCTIPipeline.ProcessBatch` | backend/app/pipeline/orchestrator.py:64-116 | in input order what each record gives one by one on the same evolving memory, and what each object says: ignored with one deduplication error for a duplicate, ignored for a text that is not about security, entities only for a text about threats, each component's result in its own field, and the failed stage when a component raises |
| `BatchPipeline.ObjectSays` | backend/app/pipeline/orchestrator.py:118-180 | the same of the objects obtained one by one, for every batch, memory and component behaviour |

## Left out

- HTTP, SQL, threads, files and clocks: durable state with commit and rollback, line sequences and time parameters stand for them; a claim and the reading of the claimed row are one step, and so is every commit with the reads of its transaction.
- Run rows under several calls: a call reads and writes its run row whole, where the source's session keeps a copy of it; the order of the commits of two sessions is the order of their events.
- `create_or_resume`, the lookup of an existing operation by identity: operations appear by an event with a fresh id.
- `_sync_external_export`: the same paging as ExportPages with a bound of 10,000 and the identity compared between pages; in the protocol an export arrives whole or fails.
- The drain file, `fairness_skips`, `attempt_count` effects and timestamps other than leases: no property modelled here depends on them.
- Events, risk scores and `event_ids` written beside raw items: only whether an object failed matters to the counts.
- Failures between adding a batch's counters and its commit, where the error path reports counters that were rolled back.
- The transformation's duplicate memory across calls of the import: in `ImportRun` a record's verdict is a function of the record and the call.
- Legacy gateway jobs' different identity check.
- ImportRun.ResumeEqualsUninterrupted: for batch sizes that change between calls only, stated for feeds in which each source name has one source type; BatchSizeIrrelevantIff shows the totals depend on batches otherwise.
- ProtocolResults.OneWorkerPerOperation: assumes that no call outlives its lease, which the source does not enforce; so do ProtocolResults.OffsetNeverDecreases and the counts in ProtocolResults.AccountingHolds, and ProtocolOverrun shows the runs without it.
- Ingestion.ExternalIngestionService: one session at a time; several sessions at once are the subject of Protocol.
- Ingestion.ExternalIngestionService.Process: a commit that itself fails is an event of Protocol, not an outcome here, apart from the last ones of the import and of the acknowledgement.
- RateLimit.RunRefines: a limit and a window are fixed for each key; with changing windows the limiter forgets admissions a longer window would count.
- Subword: pieces are given by the tokenizer's word ids; label ids are the labels themselves, so a label missing from the id table is not modelled.
- Sequences and files: universal newlines and encodings; a line is a string.
- SplitFiles.ParseSplit: hashes and excerpts of malformed lines, and first and last line of a sentence, are not kept.
- Remediation.Remediate: group counters and breakdowns by split and route are not modelled; the occurrence classes are.
- CleanSplits: report details, and overlap percentages of the audit.
- AllocateGroups.AllocateGroups: a group carries its id, entity types and length bin as computed from its sentence by CanonicalGroups; hashes are functions, and quotas are exact where the source divides floats.
- Sampling: a stratum is one string; the population digest and the manifest are not modelled; weights are exact.
- ChildSync: one collection at a time; first and last seen times of indicators are not modelled.
- BatchPipeline: building a base object never raises; logging, the record's dictionary copy and the coercion's own rules are not modelled; component calls are repeatable.
- Metrics: macro averages and `detailed_*` reports.
- Connectors, correlation, ATT&CK mapping, STIX and MISP export, authentication, training loops and the web client.
