# Embedding dispatch pipeline — a Dafny model

The repository sends text chunks, queued in a relational store, to a GPU
embedding endpoint. It records per-chunk and per-task progress in the store
and forwards the vectors it gets back to a receiver. This project models
three parts of it. Each part's contracts are proved in Dafny 4.11:

* **The asynchronous sender.** This is the dispatch loop
  (`src/senders/async/async_hf_embedding_service.py`). It checks the
  environment at startup, and rejects a configuration whose quotient of
  chunk target over request batch size is above 500. In each iteration it
  locks the task's options and reaps the finished requests, forwarding
  their results to the receiver. It then claims `needed` more open chunks
  with a single `UPDATE … LIMIT`, fetches their texts and launches one
  request per slice of the work batch size. A batch the endpoint rejects
  with 413 is re-sent one chunk at a time. A chunk rejected on its own is
  marked `fail`, and so is a batch rejected for any other reason.
* **The synchronous sender** (`src/senders/sync/process_embedding_task.py`).
  It normalises a worker address to `ip:port`. It lists unfinished tasks,
  promotes a task to `progress` and claims batches for it. For each batch
  it builds the data units and posts them until the worker answers 200. It
  stops once the task is waiting or a claim comes back short.
* **The serving side** (`src/embeddings_app/blueprints/embed/tasks.py`).
  It embeds the texts in slices. On out-of-memory it retries the whole
  input with a smaller slice size. It then builds the success and failure
  payloads that it posts back.

The modules are:

| module | file | models |
|---|---|---|
| `Common` | `common.dfy` | shared records: chunk, result unit, payload, status; slicing a sequence into batches |
| `QueueStore` | `store.dfy` | the tables `task`, `embed_task_chunk` and `embed_chunk`, the SQL statements both senders run, and the class `Store` that holds the tables |
| `AsyncSender` | `async_sender.dfy` | the asynchronous sender |
| `SyncSender` | `sync_sender.dfy` | the synchronous sender |
| `EmbedTasks` | `embed_tasks.dfy` | the serving-side vector production and payloads |

### Modelling choices

**The store.**
* A table is a sequence of rows in physical order.
* A `LIMIT n` claim takes the first `n` open rows of the task in that order.
  SQL leaves the choice open; any fixed order gives the same counting
  results.
* A negative `LIMIT` is an error in PostgreSQL. The asynchronous
  `fetch_chunks` maps it to `None`; the synchronous `get_batch` lets it
  propagate.
* `Store` methods assign the tables computed by pure functions. The
  functions carry the lemmas.

**The remote side is given as parameters.**
* The GPU endpoint is a function from request body to reply (`Endpoint`).
  A reply is a status code with the decoded vectors, each of which may be
  JSON `null`, or a raised exception.
* The worker's answers in the synchronous sender are a finite sequence of
  replies for each round.
* The serving-side model is a function from attempt number and slice texts
  to a reply (`Generator`).
* Which in-flight requests have finished when the driver wakes is a
  sequence, aligned with the pending jobs, of `Some(results)` or `None`.
  Only the choice of which jobs finished is free: a finished job's
  results are what `FetchGpuServer` gives for its batch and options
  against the endpoint (`WaitOutcome`).

**Fates and counting.**
* Each chunk of a dispatched batch ends in one of three fates: embedded,
  marked failed, or dropped. Dropped means the endpoint raised or sent too
  few vectors, so the chunk is neither returned nor marked.
* `Resolve` computes the fates and the requests sent, and
  `FetchGpuServer` is proved to return exactly the embedded units and to
  fail exactly the failed ids.

**Chunks nobody accounts for, and the concurrency bound.**
* A 200 reply with too few vectors, or a raised exception, returns `[]`
  without marking anything. The model keeps that `Dropped` fate.
  `AsyncSender.NoneDroppedIfWellBehaved` proves that every chunk ends
  embedded or failed when the endpoint never raises and every 200 reply
  carries enough vectors.
* The code's only guard on concurrency is the start-up check
  `gpubatch / reqbatch > 500`, which `RequestLimitAt500` models. The
  driver's refill claims at most `taskBatchSize - |jobs| * workBatchSize`
  chunks. `ClaimKeepsJobsWithinCeiling` proves that the job list therefore
  stays within `JobCeiling`, the ceiling of the chunk target over the work
  batch size. `JobCeilingAt500` proves that this ceiling is at most 500
  whenever the start-up check lets the process start.

## Model

| member | source | states |
|---|---|---|
| `Common.SlicesFlatten` | src/senders/async/async_hf_embedding_service.py:437-446 | cutting a sequence into slices of width w and concatenating them gives the sequence back: no chunk is lost or repeated by the partition |
| `Common.SlicesShape` | src/senders/async/async_hf_embedding_service.py:437-446 | there are ceil(n/w) slices; every slice is non-empty and at most w long, and all but the last are exactly w long |
| `Common.SlicesAt` | src/embeddings_app/blueprints/embed/tasks.py:142-145 | slice j is exactly the elements from j*w up to min(j*w+w, n), as the Python slice `s[j*w : j*w+w]` |
| `QueueStore.ClaimCount` | src/senders/async/async_hf_embedding_service.py:117-131 | the claim returns min(limit, number of open rows of the task) ids, and the number of open rows drops by exactly that many |
| `QueueStore.ClaimChangesOnlyOpenRows` | src/senders/sync/process_embedding_task.py:480-501 | every row is either unchanged or was an open row of the task and is now `progress`; the returned ids are exactly the chunk ids of the changed rows, in table order |
| `QueueStore.ClaimRound` | src/senders/sync/process_embedding_task.py:480-501 | a further claim keeps every row unchanged or claimed relative to the starting table, and adds the ids it returns to those of claimed rows; a row claimed earlier is `progress` and is not claimed again |
| `QueueStore.ProgressedIdsAt` | src/senders/sync/process_embedding_task.py:480-501 | an id is among the progressed ids exactly when some row that went from `open` to `progress` for the task has that chunk id |
| `QueueStore.ClaimNothing` | src/senders/async/async_hf_embedding_service.py:117-134 | a claim with limit 0, or for a task with no open rows, returns no ids and leaves the table as it was |
| `QueueStore.FailRowsCompose` | src/senders/async/async_hf_embedding_service.py:214-245 | failing ids a and then b is failing a + b, so the singleton re-sends of a split batch add up to one marking; failing the same ids twice is failing them once; failing no ids changes nothing |
| `QueueStore.SelectTextsExact` | src/senders/async/async_hf_embedding_service.py:136-141 | a chunk is fetched if and only if it is a row whose id was claimed and whose text is not null; the result is empty exactly when no claimed chunk has text |
| `QueueStore.SelectTextsOfRows` | src/senders/sync/process_embedding_task.py:379-395 | the fetched records correspond one to one, in table order, to the matching rows with text |
| `QueueStore.SelectTextsDistinct` | src/senders/async/async_hf_embedding_service.py:136-141 | with unique chunk ids in the table, the fetched ids are pairwise distinct and each is a table id |
| `QueueStore.SelectTextsBound` | src/senders/async/async_hf_embedding_service.py:136-141 | with unique chunk ids in the table, no more chunks are fetched than ids were asked for |
| `QueueStore.LockOptionsRows` | src/senders/async/async_hf_embedding_service.py:331-350 | locking sets the new status on exactly the rows of the task that were open or in progress, and leaves all other rows alone |
| `QueueStore.LockOptionsFound` | src/senders/async/async_hf_embedding_service.py:331-350 | options are returned if and only if the task has a startable row, and they are the options of the first such row |
| `QueueStore.LockProgressIdempotent` | src/senders/async/async_hf_embedding_service.py:331-350 | locking to `progress` twice gives the same table and the same options as locking once |
| `QueueStore.SetStatusReadsBack` | src/senders/sync/process_embedding_task.py:330-346 | after setting a task's status, reading the status of that task gives the new value |
| `QueueStore.SetStatusReadsOnly` | src/senders/sync/process_embedding_task.py:535 | after setting a status the task reads back with that status or is missing; no other status can be read |
| `QueueStore.SetStatusIdempotent` | src/senders/sync/process_embedding_task.py:535 | setting the same status twice gives the same table as setting it once |
| `QueueStore.PromoteIsSetProgress` | src/senders/sync/process_embedding_task.py:621 | the promotion statement's `AND NOT status='progress'` guard makes no difference: every row of the task becomes `progress`, whatever its status, no other task changes, promoting twice is promoting once, and a task present in the table reads back as `progress` |
| `QueueStore.WithStatusExact` | src/senders/sync/process_embedding_task.py:115-131 | the rows selected for one status are exactly the unfinished rows asked for that have this status |
| `QueueStore.UnfinishedTasksExact` | src/senders/sync/process_embedding_task.py:115-131 | a row is listed if and only if it is open or in progress, has the requested action and, when an id is given, that id; every open row comes before every row in progress |
| `QueueStore.Store.Claim` | src/senders/async/async_hf_embedding_service.py:117-131 | a negative limit raises and leaves the table unchanged; otherwise the table becomes the claimed table and the claimed ids are returned |
| `QueueStore.Store.MarkFailed` | src/senders/async/async_hf_embedding_service.py:244 | the `embed_task_chunk` table becomes that table with those chunk ids set to `fail`; the `task` and `embed_chunk` tables are unchanged |
| `QueueStore.Store.LockTaskOptions` | src/senders/async/async_hf_embedding_service.py:331-350 | the task table becomes the locked table and the options of the first startable row (or none) are returned |
| `QueueStore.Store.PromoteTask` | src/senders/sync/process_embedding_task.py:621 | the task table becomes the promoted table |
| `QueueStore.Store.SetTaskStatus` | src/senders/sync/process_embedding_task.py:535 | the task table becomes the table with the task's status set (the corrected `change_task_status`, see Findings) |
| `AsyncSender.CheckEnvVars` | src/senders/async/async_hf_embedding_service.py:44-50 | no name is reported if and only if all eight required variables are set; otherwise the reported name is the first one, in declaration order, that is missing |
| `AsyncSender.RequestLimitAt500` | src/senders/async/async_hf_embedding_service.py:471-477 | with a positive request batch size, the process starts if and only if the chunk target is at most 500 times the request batch size |
| `AsyncSender.JobCeilingAt500` | src/senders/async/async_hf_embedding_service.py:470-477 | when the start-up check lets the process start, the job ceiling is at most 500, so a driver that starts with no jobs never holds more than 500 |
| `AsyncSender.InputsCarryText` | src/senders/async/async_hf_embedding_service.py:182-190 | there is one input per chunk, in order; a non-empty prefix is prepended to the chunk text with a single space, and an absent or empty prefix leaves the text as it is |
| `AsyncSender.Resolve` | src/senders/async/async_hf_embedding_service.py:154-252 | one fate per chunk; between 1 and 1 + n requests are sent, and a batch of at most one chunk is sent exactly once |
| `AsyncSender.ResolveEach` | src/senders/async/async_hf_embedding_service.py:225-233 | re-sending the first j chunks one at a time gives j fates and j requests |
| `AsyncSender.ResolveEachAt` | src/senders/async/async_hf_embedding_service.py:225-233 | the fate of chunk i after splitting is the fate of chunk i resolved as a batch of one, and request i carries only chunk i |
| `AsyncSender.RequestsOfResolve` | src/senders/async/async_hf_embedding_service.py:214-233 | the first request carries the whole batch; more requests are sent only after a 413 on a batch of two or more chunks, and then there are exactly 1 + n of them, one per chunk in order |
| `AsyncSender.FatesOfResolve` | src/senders/async/async_hf_embedding_service.py:201-252 | by reply: a 200 with enough vectors embeds every chunk with its vector at the same index; a 200 with too few vectors, or a raised exception, drops every chunk; a 413 on one chunk fails it; any other code fails every chunk |
| `AsyncSender.NoneDroppedIfWellBehaved` | src/senders/async/async_hf_embedding_service.py:201-252 | if the endpoint never raises and every 200 carries enough vectors, every chunk ends embedded or failed |
| `AsyncSender.KeptFromBatch` | src/senders/async/async_hf_embedding_service.py:192-252 | returned, failed and dropped chunks add up to the batch; each returned unit is built from a chunk of the batch and carries the vector (possibly `null`) that the chunk's fate gave it, and every failed id belongs to the batch |
| `AsyncSender.EmbeddedHaveVectors` | src/senders/async/async_hf_embedding_service.py:203-207 | if the endpoint never answers with a `null` vector, every embedded chunk has a vector, including after a 413 split |
| `AsyncSender.KeptAndFailedDisjoint` | src/senders/async/async_hf_embedding_service.py:201-252 | with distinct chunk ids, no chunk is both returned and marked failed |
| `AsyncSender.SuccessKeepsOrder` | src/senders/async/async_hf_embedding_service.py:203-211 | on a plain 200 the returned units are the batch in order, unit i carrying vector i of the reply |
| `AsyncSender.FetchGpuServer` | src/senders/async/async_hf_embedding_service.py:154-252 | returns exactly the units of the chunks whose fate is embedded, in batch order, and the chunk table becomes the old one with exactly the failed ids marked `fail` |
| `AsyncSender.PairVectors` | src/senders/async/async_hf_embedding_service.py:203-211 | the records are paired if and only if the response has at least one vector per chunk, and then record i carries chunk i's fields and vector i |
| `AsyncSender.ResendEach` | src/senders/async/async_hf_embedding_service.py:225-233 | the one-chunk re-sends return, in batch order, the records of the chunks their own requests embedded, and the table ends with exactly the chunks those requests fail set to `fail` |
| `AsyncSender.FetchChunks` | src/senders/async/async_hf_embedding_service.py:99-148 | a negative count gives none and leaves the table unchanged; otherwise the claim is applied and the result is the texts of the claimed chunks that have text |
| `AsyncSender.PartitionCoversClaim` | src/senders/async/async_hf_embedding_service.py:437-446 | the launched jobs carry, in order, exactly the fetched chunks, each with the task's options |
| `AsyncSender.ReplenishWithinTarget` | src/senders/async/async_hf_embedding_service.py:418-446 | launching the slices of at most `needed` chunks keeps every job within the work batch size and keeps the chunks in flight within the target |
| `AsyncSender.ClaimKeepsInFlightWithinTarget` | src/senders/async/async_hf_embedding_service.py:418-446 | with unique chunk ids, claiming and launching `needed` chunks keeps the chunks in flight at most the chunk target, and no job larger than the work batch size |
| `AsyncSender.ClaimKeepsJobsWithinCeiling` | src/senders/async/async_hf_embedding_service.py:418-446 | with unique chunk ids, claiming `target - jobs * work batch size` chunks and launching their slices keeps the number of jobs at most the ceiling of the target over the work batch size |
| `AsyncSender.ReapKeepsJobSize` | src/senders/async/async_hf_embedding_service.py:396-399 | every job still pending after a reap was pending before, so the jobs stay within the work batch size |
| `AsyncSender.ReapSplits` | src/senders/async/async_hf_embedding_service.py:396-404 | the jobs still pending and the jobs completed add up to the jobs that were pending: none is lost or counted twice |
| `AsyncSender.CompletedFromJobs` | src/senders/async/async_hf_embedding_service.py:401-407 | when each completed job returned what `fetch_gpuserver_url` gives for its batch and options, every result collected from the completed jobs has the chunk id, sequence number and publication of a chunk in the batch of one of the completed jobs, and the vector its job embedded that chunk with |
| `AsyncSender.CompletedVectorsIfNullFree` | src/senders/async/async_hf_embedding_service.py:290 | if the endpoint never answers with a `null` vector, every collected result carries a vector, so the receiver payload's `len` of the first vector is defined |
| `AsyncSender.Reap` | src/senders/async/async_hf_embedding_service.py:396-407 | the jobs left are exactly those still pending; a payload is forwarded exactly when the completed jobs returned results and the first one's vector is not `null`, with the task id, all of those results and the first vector's length as dimension; a `null` first vector makes the receiver task raise at line 290 and nothing is posted, and against a null-free endpoint a payload is forwarded exactly when there are results; every unit belongs to a chunk of a completed job's batch |
| `AsyncSender.Refill` | src/senders/async/async_hf_embedding_service.py:418-448 | with the jobs already in flight at or above the chunk target nothing is claimed; otherwise `needed = target - jobs * work batch size` is computed, zero and negative values claim nothing, a positive value claims that many rows, and a zero, negative or positive work batch size ends as the code does, with the new jobs and table stated; the job list grows only when jobs are launched, and stays within `JobCeiling` when it started there |
| `AsyncSender.DriverStep` | src/senders/async/async_hf_embedding_service.py:393-448 | one iteration against one endpoint, where each completed job returned its `fetch_gpuserver_url` result and only which jobs completed is left open: the options are locked and the finished jobs reaped; their results are forwarded exactly when there are any and the first vector is not `null` (on a `null` one the payload build at line 290 raises and nothing is posted), in one success payload (built as at lines 285-292) with the task id, the results unchanged and the first vector's length as dimension, every unit of it from a chunk of a completed job's batch; without options it backs off with the chunk table untouched; saturation, zero, negative and positive `needed`, and a zero or negative work batch size each end as the code does, with the new jobs and tables stated; the job list never grows unless jobs are launched, and never rises above `JobCeiling` once within it |
| `SyncSender.SplitJoin` | src/senders/sync/process_embedding_task.py:220-230 | splitting on a separator and joining back gives the string again, no part contains the separator, and there are two or more parts if and only if the separator occurs |
| `SyncSender.IpPortNormalises` | src/senders/sync/process_embedding_task.py:220-230 | an address with a colon is returned as it is, one without gets `:5004` appended; the result always has a colon, and normalising twice is normalising once |
| `SyncSender.SendForProcessing` | src/senders/sync/process_embedding_task.py:243-303 | the data is sent if and only if some reply is 200, and then exactly after the first such reply; if it is not sent, every reply was tried |
| `SyncSender.GetChunksToSend` | src/senders/sync/process_embedding_task.py:379-395 | the loop collects exactly the texts of the claimed chunks that have text, in table order |
| `SyncSender.PrepareDataUnits` | src/senders/sync/process_embedding_task.py:430-445 | no data is prepared if and only if no claimed chunk has text; otherwise the data carries the task id, the options' model and the non-empty list of those chunks |
| `SyncSender.ChangeTaskStatusAsWrittenFails` | src/senders/sync/process_embedding_task.py:535 | the statement as written fails with an undefined column for every table, task and status |
| `SyncSender.ChangeTaskStatusApplies` | src/senders/sync/process_embedding_task.py:535 | as intended, the statement applies to an existing task, leaves the other tasks' rows unchanged and the task reads back with the new status |
| `SyncSender.ProcessSingleBatch` | src/senders/sync/process_embedding_task.py:574-589 | a negative batch size raises and changes nothing; an empty claim returns an empty list; a claim whose chunks all lack text sets the task to `fail` (with the corrected status statement) and returns an empty list; otherwise the task table is unchanged and the claim is returned if and only if some worker reply is 200 |
| `SyncSender.WaitingUnreachable` | src/senders/sync/process_embedding_task.py:338-340 | after the promotion the task reads as `progress` or is missing, and after the all-null batch's `fail` it reads as `fail` or is missing: no statement of the sender sets `waiting` |
| `SyncSender.CheckAndDecideContinueTask` | src/senders/sync/process_embedding_task.py:327-346 | the status is the task's status read from the task table, and the flag is `ContinueTask` of it and the batch: false when the task is `waiting` or the batch is empty or shorter than the batch size |
| `SyncSender.ContinueOnlyOnFullClaim` | src/senders/sync/process_embedding_task.py:342-346 | after a claim of `batchSize` rows the task goes on if and only if it is not `waiting` and had at least `batchSize > 0` open rows, and then the claim was full, so a task with fewer open rows than the batch size stops after its next round |
| `SyncSender.TaskRound` | src/senders/sync/process_embedding_task.py:663-665 | one loop pass: a raised claim changes nothing and skips the continue check; otherwise the task table stays the promoted one or that one with the task failed (with the corrected status statement), the status read is the task's status in it and the continue flag is `ContinueTask` of that status and the round's ids, the chunk rows stay a claimed form of the starting rows with the round's ids among the claimed rows, and the open count drops by at least the number of ids returned |
| `SyncSender.ProcessSingleTask` | src/senders/sync/process_embedding_task.py:660-665 | the task is promoted and the task table ends as the promoted one or that one with the task failed (with the corrected status statement); there is a round `k` (or none) at which the task failed: every status read before it is the task's status in the promoted table, every one from it on its status in the failed table, and the table is the failed one once `k` is passed, so no status read is `waiting`; every round but the last passed the continue test, and a stop means the last round failed it with the current status, which can only be a short or empty claim; every chunk row ends unchanged or was an `open` row of the task now in `progress`, every id returned is the chunk id of such a row, and the open rows drop by at least the number of ids returned |
| `EmbedTasks.PasteZips` | src/embeddings_app/blueprints/embed/tasks.py:104-109 | pasting has the length of the shorter input, and unit i carries chunk i's id, sequence number and publication with embedding i |
| `EmbedTasks.AttemptConcatenates` | src/embeddings_app/blueprints/embed/tasks.py:142-145 | a completed attempt got embeddings for every slice, and its vectors are the slices' embeddings concatenated in slice order |
| `EmbedTasks.AttemptSucceedsIffAllGenerated` | src/embeddings_app/blueprints/embed/tasks.py:142-145 | an attempt completes if and only if the generator returned embeddings for every slice |
| `EmbedTasks.ExhaustedIffAllOutOfMemory` | src/embeddings_app/blueprints/embed/tasks.py:153-163 | production ends with the batch size exhausted if and only if every attempt, one per batch size from the initial one down to 1, ran out of memory |
| `EmbedTasks.ProducedFromLastAttempt` | src/embeddings_app/blueprints/embed/tasks.py:135-151 | a successful run returns the given model name and the chunks pasted with the vectors of the first attempt that did not run out of memory; all earlier attempts did |
| `EmbedTasks.ReraisedIsTheGeneratorError` | src/embeddings_app/blueprints/embed/tasks.py:164-169 | a re-raised failure is the error of the first attempt that did not run out of memory, every earlier attempt having run out of memory, and it is neither a result nor out of memory |
| `EmbedTasks.EmbedFromIsSlices` | src/embeddings_app/blueprints/embed/tasks.py:142-145 | the index-stepping loop over positions i, i+w, … computes the same attempt as slicing the remaining chunks into width-w slices |
| `EmbedTasks.EmbedSlices` | src/embeddings_app/blueprints/embed/tasks.py:142-145 | the slice loop computes the attempt over the width-w slices: the embeddings of every slice concatenated in slice order, or the first reply that was not a list of embeddings |
| `EmbedTasks.ProduceVectors` | src/embeddings_app/blueprints/embed/tasks.py:132-169 | the retry loop computes exactly the recursive specification `Produce` from attempt 0, whose outcomes `ExhaustedIffAllOutOfMemory`, `ProducedFromLastAttempt` and `ReraisedIsTheGeneratorError` characterise |
| `EmbedTasks.TransferData` | src/embeddings_app/blueprints/embed/tasks.py:42-51 | the payload carries all fields as given; the address is the worker ip when present and non-empty, otherwise `ip error`, never empty |
| `EmbedTasks.TriggerPayloads` | src/embeddings_app/blueprints/embed/tasks.py:199-237 | one or two payloads are posted; a success payload, when sent, comes first with the vectors, their dimension and a node count; the last payload is a failure, one null-vector record per chunk, if and only if production failed, gave no or null vectors, or the success post raised |
| `EmbedTasks.SuccessCountsEveryChunk` | src/embeddings_app/blueprints/embed/tasks.py:199-217 | when the first attempt gives one vector per chunk, the first payload is a success that counts one node per chunk and carries the chunks' ids in order |

## Left out

- Network I/O is left out: HTTP, TLS, bearer headers, JSON decoding and the receiver POST. The endpoint, worker and receiver are parameters, and a decoding error counts as the endpoint raising.
- Concurrency is left out: asyncio scheduling, timeouts and sleeps, row locking and other processes writing the tables. The model is sequential, so no other writer sets a task to `waiting` during inference. `WaitingUnreachable` shows that the sender itself never does, so the `waiting` stop of the synchronous loop cannot be reached in this model; only another writer could trigger it.
- The async dispatch loop is modelled one iteration at a time (`DriverStep`); the unbounded loop around it has no exit.
- `asyncio.wait` returns its done and pending jobs as sets (async_hf_embedding_service.py:397-404), so the order of the jobs left pending and of the concatenated results is not fixed by the code. That order decides the order of the payload's vectors and which vector gives the dimension. The model keeps launch order for both.
- Store errors other than a negative `LIMIT` are left out: lost connections, commit and rollback, and the `None` that the except branches of `get_task_options` and `fetch_chunks` return for them.
- `get_available_worker`, `process_tasks`, `connect_to_db`, argument parsing and environment loading are not part of this model. They are polling loops and configuration I/O around the modelled operations.
- `GPUMonitor`, `notify_needed`, the timing decorator, logging, and the timing and GPU statistics fields of the payloads are left out. The payload statistics keep only the node count, model and dimension.
- Vector values are opaque `real` sequences: floating-point rounding in the embeddings and in the 500 limit is not modelled. The model compares an exact quotient.
- `prepare_embedding_model_to_use` is left out. The resolved model name is a parameter of `Produce`, and an exception while loading the model is not modelled.
- The serving side's `ip` is a parameter, since `tasks.py` imports it by value at load time.
- `AsyncSender.DriverStep`: the completed jobs' own marking of failed chunks, done inside each `fetch_gpuserver_url` as `FetchGpuServer` states, happens while the jobs run; `DriverStep` does not apply it to the chunk table, and only reaps their results.
- `EmbedTasks.ProduceVectors` and `EmbedTasks.TriggerPayloads`: the default `int_batch_size = 5` (tasks.py:114 and 174) is not modelled; the batch size is always an explicit parameter.
- `SyncSender.SendForProcessing`: the source retries forever until a worker answers 200. The model stops after a given finite sequence of replies and reports whether it succeeded.
- `SyncSender.ProcessSingleBatch`: a round whose worker never answers 200 ends as `StillSending` instead of blocking forever.
- `SyncSender.ProcessSingleBatch`: the all-null branch follows the corrected `change_task_status` (see Findings) and sets the task to `fail`. As written, the statement at process_embedding_task.py:535 raises and the `except` at lines 591-596 re-raises, so the batch ends with an exception and no status change; `ChangeTaskStatusAsWrittenFails` models that statement.
- `SyncSender.TaskRound`: a round with an all-null claim sets the task to `fail` through the corrected status statement. As written, it raises (process_embedding_task.py:535, re-raised at 591-596), so the round leaves the task in `progress`.
- `SyncSender.ProcessSingleTask`: the ending with the task failed follows the corrected status statement. As written, an all-null claim raises out of the loop (re-raised again at process_embedding_task.py:667-674), the task stays `progress`, and `process_tasks` stops.
- `SyncSender.ProcessSingleTask`: conservation is stated as an inequality. An all-null claim fails the task and returns an empty claim, yet its rows stay in `progress`, so they leave the open count without appearing among the claims.

## Findings

| source | as written | input that shows it | evidently intended | confidence | as-written member | corrected member |
|---|---|---|---|---|---|---|
| src/senders/sync/process_embedding_task.py:535 | `change_task_status` updates `task` filtering on a column `taskid`, while every other statement on `task` (lines 117, 332, 621) uses `id` | a task with one open chunk whose text is null: `process_single_batch` calls `change_task_status(..., "fail")`, the statement fails on the undefined column, and the exception propagates, so the task is never set to `fail` | filter on `id`, so the task is set to `fail` and `[]` is returned | not executed; relies on `task` having no `taskid` column, as its other statements suggest | `SyncSender.ChangeTaskStatusAsWrittenFails` | `SyncSender.ChangeTaskStatusApplies` (used through `QueueStore.Store.SetTaskStatus` by `SyncSender.ProcessSingleBatch`) |
