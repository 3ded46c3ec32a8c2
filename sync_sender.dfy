/** The synchronous sender: promotes a task to 'progress', then claims one
    batch at a time, fetches the texts of the claimed chunks, posts them to a
    worker's embedding service until it answers 200, and stops when the task
    is 'waiting' or a claim comes back short. */
module SyncSender {
  import opened Common
  import opened QueueStore

  // ---------------------------------------------------------------------
  // `get_ip_port`

  /** Python's `s.split(sep)` for a one-character separator. */
  function Split(s: string, sep: char): (parts: seq<string>)
    ensures |parts| >= 1
  {
    if s == [] then [""]
    else
      var rest := Split(s[1..], sep);
      if s[0] == sep then [""] + rest else [[s[0]] + rest[0]] + rest[1..]
  }

  /** Python's `sep.join(parts)`. */
  function Join(parts: seq<string>, sep: char): string
    requires |parts| >= 1
  {
    if |parts| == 1 then parts[0] else parts[0] + [sep] + Join(parts[1..], sep)
  }

  lemma {:induction false} SplitJoinBack(s: string, sep: char)
    ensures Join(Split(s, sep), sep) == s
  {
    if s != [] {
      SplitJoinBack(s[1..], sep);
      var rest := Split(s[1..], sep);
      var parts := Split(s, sep);
      if s[0] == sep {
        assert parts[1..] == rest;
      } else if |rest| == 1 {
        assert Join(parts, sep) == [s[0]] + rest[0];
      } else {
        assert parts[1..] == rest[1..];
        assert Join(parts, sep) == [s[0]] + rest[0] + [sep] + Join(rest[1..], sep);
      }
      assert s == [s[0]] + s[1..];
    }
  }

  lemma {:induction false} SplitPartsFree(s: string, sep: char)
    ensures forall k :: 0 <= k < |Split(s, sep)| ==> sep !in Split(s, sep)[k]
  {
    if s != [] {
      SplitPartsFree(s[1..], sep);
      var rest := Split(s[1..], sep);
      var parts := Split(s, sep);
      forall k | 0 <= k < |parts| ensures sep !in parts[k] {
        if s[0] == sep {
          if k > 0 { assert parts[k] == rest[k - 1]; }
        } else if k > 0 {
          assert parts[k] == rest[k];
        } else {
          assert parts[0] == [s[0]] + rest[0];
        }
      }
    }
  }

  lemma {:induction false} SplitCountsSep(s: string, sep: char)
    ensures |Split(s, sep)| >= 2 <==> sep in s
  {
    if s != [] {
      SplitCountsSep(s[1..], sep);
      assert s == [s[0]] + s[1..];
    }
  }

  /** Joining the parts of a split gives back the string; no part holds the
      separator; there are at least two parts exactly when the separator
      occurs. */
  lemma {:induction false} SplitJoin(s: string, sep: char)
    ensures Join(Split(s, sep), sep) == s
    ensures forall k :: 0 <= k < |Split(s, sep)| ==> sep !in Split(s, sep)[k]
    ensures |Split(s, sep)| >= 2 <==> sep in s
  {
    SplitJoinBack(s, sep);
    SplitPartsFree(s, sep);
    SplitCountsSep(s, sep);
  }

  /** `get_ip_port`: split the address on ':', add the default port 5004 when
      there was no ':' and join again. */
  function IpPort(address: string): string {
    var parts := Split(address, ':');
    Join(if |parts| < 2 then parts + ["5004"] else parts, ':')
  }

  /** An address with a ':' is returned unchanged, one without gets ':5004';
      the result always has a ':' and normalising twice is normalising once. */
  lemma IpPortNormalises(address: string)
    ensures IpPort(address) == if ':' in address then address else address + ":5004"
    ensures ':' in IpPort(address)
    ensures IpPort(IpPort(address)) == IpPort(address)
  {
    SplitJoin(address, ':');
    var parts := Split(address, ':');
    if |parts| < 2 {
      assert parts == [Join(parts, ':')];
      assert Join(parts + ["5004"], ':') == address + [':'] + "5004";
      var full := address + ":5004";
      assert full[|address|] == ':';
      SplitJoin(full, ':');
    } else {
      SplitJoin(address, ':');
    }
  }

  // ---------------------------------------------------------------------
  // `check_and_decide_continue_task`

  /** Stop when the task reads back 'waiting', or when the batch just
      processed is empty or shorter than the batch size. */
  predicate ContinueTask(status: Option<Status>, claimed: seq<int>, batchSize: int) {
    status != Some(Waiting) && claimed != [] && |claimed| >= batchSize
  }

  /** `check_and_decide_continue_task`: read the task's status back, clear
      the flag when it is 'waiting', and clear it again when the batch just
      processed is empty or short. */
  method CheckAndDecideContinueTask(store: Store, taskid: int, claimed: seq<int>, batchSize: int)
    returns (status: Option<Status>, work: bool)
    ensures status == StatusOf(store.tasks, taskid)
    ensures work == ContinueTask(status, claimed, batchSize)
  {
    status := StatusOf(store.tasks, taskid);
    work := true;
    if status.Some? && status.value == Waiting {
      work := false;
    }
    if claimed == [] || |claimed| < batchSize {
      work := false;
    }
  }

  /** Applied to a claim of `batchSize` rows, the test goes on exactly when
      the task is not 'waiting' and had at least `batchSize > 0` open rows,
      and then the claim was full: a task with fewer open rows than the
      batch size is finished by its next round. */
  lemma ContinueOnlyOnFullClaim(rows: seq<TaskChunkRow>, taskid: int, batchSize: nat, status: Option<Status>)
    ensures var c := ClaimRows(rows, taskid, batchSize);
      && (ContinueTask(status, c.ids, batchSize) <==>
            status != Some(Waiting) && batchSize > 0 && OpenCount(rows, taskid) >= batchSize)
      && (ContinueTask(status, c.ids, batchSize) ==> |c.ids| == batchSize)
  {
    ClaimCount(rows, taskid, batchSize);
  }

  // ---------------------------------------------------------------------
  // `send_data_for_processing`

  /** What one POST to the worker yields: a status code, a `requests`
      exception, or any other exception. */
  datatype SyncReply = HttpStatus(code: int) | RequestFailed | OtherFailure

  /** The retry loop: post again after 503, 500, any other status and any
      exception, and return after the first 200. `replies` are the answers to
      successive attempts; when they run out before a 200 the sender is
      still retrying, which is `sent == false`. */
  method SendForProcessing(replies: seq<SyncReply>) returns (sent: bool, attempts: nat)
    ensures sent <==> exists k :: 0 <= k < |replies| && replies[k] == HttpStatus(200)
    ensures sent ==>
      && 1 <= attempts <= |replies| && replies[attempts - 1] == HttpStatus(200)
      && forall k :: 0 <= k < attempts - 1 ==> replies[k] != HttpStatus(200)
    ensures !sent ==> attempts == |replies|
  {
    var toSend := true;
    attempts := 0;
    while toSend && attempts < |replies|
      invariant 0 <= attempts <= |replies|
      invariant toSend ==> forall k :: 0 <= k < attempts ==> replies[k] != HttpStatus(200)
      invariant !toSend ==>
        && 1 <= attempts && replies[attempts - 1] == HttpStatus(200)
        && forall k :: 0 <= k < attempts - 1 ==> replies[k] != HttpStatus(200)
    {
      match replies[attempts] {
        case HttpStatus(code) =>
          if code == 200 {
            toSend := false;
          }
        case RequestFailed =>
        case OtherFailure =>
      }
      attempts := attempts + 1;
    }
    sent := !toSend;
  }

  // ---------------------------------------------------------------------
  // `get_chunks_to_send` and `prepare_data_units_for_sending`

  /** `get_chunks_to_send`: one `{chunkid, publid, seq, txt}` record per
      fetched `(id, txt, publid, seq)` row, in row order. */
  method GetChunksToSend(store: Store, ids: seq<int>) returns (records: seq<Chunk>)
    ensures records == SelectTexts(store.chunks, ids)
  {
    var rows := MatchingRows(store.chunks, ids);
    records := [];
    for k := 0 to |rows|
      invariant |records| == k && forall j :: 0 <= j < k ==> records[j] == Fetched(rows[j])
    {
      var row := rows[k];
      records := records + [Chunk(row.id, row.txt.value, row.publid, row.seqNo)];
    }
    SelectTextsOfRows(store.chunks, ids);
  }

  /** The request body sent to a worker. */
  datatype SendData = SendData(taskid: int, embeddingModel: Option<string>, taskChunks: seq<Chunk>)

  /** `prepare_data_units_for_sending`: `None` exactly when no claimed chunk
      has text; otherwise the task id, the `embedding_model` option (`None`
      when absent) and the records. */
  method PrepareDataUnits(store: Store, claimed: seq<int>, taskid: int, options: Options)
    returns (data: Option<SendData>)
    ensures data.None? <==> forall k :: 0 <= k < |store.chunks| ==> !HasText(store.chunks[k], claimed)
    ensures data.Some? ==>
      && data.value == SendData(taskid, options.embeddingModel, SelectTexts(store.chunks, claimed))
      && data.value.taskChunks != []
  {
    var records := GetChunksToSend(store, claimed);
    SelectTextsExact(store.chunks, claimed);
    if |records| > 0 {
      return Some(SendData(taskid, options.embeddingModel, records));
    }
    return None;
  }

  // ---------------------------------------------------------------------
  // `change_task_status`

  /** The outcome of `UPDATE task SET status = ... WHERE <column> = <id>`. */
  datatype StatementResult = Applied(tasks: seq<TaskRow>) | UndefinedColumn(column: string)

  /** `id` is the only integer column of `task(id, status, action,
      action_options)`; a filter on any other name fails. */
  function UpdateStatusWhere(tasks: seq<TaskRow>, column: string, value: int, status: Status): StatementResult {
    if column == "id" then Applied(SetStatus(tasks, value, status)) else UndefinedColumn(column)
  }

  /** `change_task_status` as written: it filters on `taskid`. */
  function ChangeTaskStatusAsWritten(tasks: seq<TaskRow>, taskid: int, status: Status): StatementResult {
    UpdateStatusWhere(tasks, "taskid", taskid, status)
  }

  /** As written, the statement never applies: it fails on the unknown column
      for every table and task, so no task is ever set to 'fail' by it. */
  lemma ChangeTaskStatusAsWrittenFails(tasks: seq<TaskRow>, taskid: int, status: Status)
    ensures ChangeTaskStatusAsWritten(tasks, taskid, status) == UndefinedColumn("taskid")
  {
  }

  /** `change_task_status` as intended: filter on `id`. */
  function ChangeTaskStatus(tasks: seq<TaskRow>, taskid: int, status: Status): StatementResult {
    UpdateStatusWhere(tasks, "id", taskid, status)
  }

  /** As intended, the statement applies, touches only the rows of the task,
      and the task then reads back with the new status. */
  lemma ChangeTaskStatusApplies(tasks: seq<TaskRow>, taskid: int, status: Status)
    requires exists k :: 0 <= k < |tasks| && tasks[k].id == taskid
    ensures ChangeTaskStatus(tasks, taskid, status).Applied?
    ensures var after := ChangeTaskStatus(tasks, taskid, status).tasks;
      && |after| == |tasks|
      && (forall k :: 0 <= k < |tasks| && tasks[k].id != taskid ==> after[k] == tasks[k])
      && StatusOf(after, taskid) == Some(status)
  {
    SetStatusReadsBack(tasks, taskid, status);
  }

  // ---------------------------------------------------------------------
  // `process_single_batch` and `process_single_task`

  /** How one batch ended: its claimed chunk ids were returned, the claim
      raised (negative batch size), or the worker never answered 200 within
      the replies given (the source retries forever). */
  datatype BatchOutcome = Claimed(ids: seq<int>) | ClaimRaised | StillSending(ids: seq<int>)

  /** `process_single_batch`: claim (`get_batch`); an empty claim returns
      `[]`; a claim whose chunks all have null text fails the task (as
      intended, see `ChangeTaskStatus`) and returns `[]`; otherwise the batch
      is sent and the claim returned. */
  method ProcessSingleBatch(store: Store, taskid: int, batchSize: int, options: Options, replies: seq<SyncReply>)
    returns (outcome: BatchOutcome)
    modifies store`taskChunks, store`tasks
    ensures batchSize < 0 ==> outcome == ClaimRaised && store.taskChunks == old(store.taskChunks) && store.tasks == old(store.tasks)
    ensures batchSize >= 0 ==>
      var c := ClaimRows(old(store.taskChunks), taskid, batchSize);
      && store.taskChunks == c.rows
      && (c.ids == [] ==> outcome == Claimed([]) && store.tasks == old(store.tasks))
      && (c.ids != [] && SelectTexts(store.chunks, c.ids) == [] ==>
            outcome == Claimed([]) && store.tasks == SetStatus(old(store.tasks), taskid, Fail))
      && (SelectTexts(store.chunks, c.ids) != [] ==>
            && store.tasks == old(store.tasks)
            && (outcome == Claimed(c.ids) <==> exists k :: 0 <= k < |replies| && replies[k] == HttpStatus(200))
            && (outcome != Claimed(c.ids) ==> outcome == StillSending(c.ids)))
    ensures !outcome.ClaimRaised? ==>
      && batchSize >= 0
      && (store.tasks == old(store.tasks) || store.tasks == SetStatus(old(store.tasks), taskid, Fail))
      && (outcome.ids == [] || outcome.ids == ClaimRows(old(store.taskChunks), taskid, batchSize).ids)
      && OpenCount(store.taskChunks, taskid) + |outcome.ids| <= OpenCount(old(store.taskChunks), taskid)
  {
    if batchSize >= 0 {
      ClaimCount(store.taskChunks, taskid, batchSize);
    }
    var claimed := store.Claim(taskid, batchSize);
    if claimed.None? {
      return ClaimRaised;
    }
    var ids := claimed.value;
    if ids == [] {
      assert SelectTexts(store.chunks, []) == [] by { SelectTextsExact(store.chunks, []); }
      return Claimed([]);
    }
    var data := PrepareDataUnits(store, ids, taskid, options);
    SelectTextsExact(store.chunks, ids);
    if data.None? {
      store.SetTaskStatus(taskid, Fail);
      return Claimed([]);
    }
    var sent, _ := SendForProcessing(replies);
    if !sent {
      return StillSending(ids);
    }
    return Claimed(ids);
  }

  /** How a task's loop ended: the continue test said stop, the claim
      raised, or a batch is still being sent. */
  datatype TaskEnd = Stopped | Raised | Sending

  /** In the sequential model nothing sets a task to 'waiting': after the
      promotion, and after the promotion followed by the all-null batch's
      `fail`, the task reads as 'progress', 'fail' or missing. */
  lemma WaitingUnreachable(tasks: seq<TaskRow>, taskid: int)
    ensures StatusOf(Promote(tasks, taskid), taskid) in {None, Some(Progress)}
    ensures StatusOf(SetStatus(Promote(tasks, taskid), taskid, Fail), taskid) in {None, Some(Fail)}
  {
    PromoteIsSetProgress(tasks, taskid);
    SetStatusReadsOnly(tasks, taskid, Progress);
    SetStatusReadsOnly(Promote(tasks, taskid), taskid, Fail);
  }

  /** The task failed in round `k` of the rounds `statuses` records (or in
      none, when `k` is their number): the rounds before it read the task's
      status in the promoted table, those from it on its status in the
      failed table, and the table is the failed one once `k` is passed. */
  ghost predicate FailedFrom(promoted: seq<TaskRow>, failed: seq<TaskRow>, tasks: seq<TaskRow>, taskid: int,
                             statuses: seq<Option<Status>>, k: nat)
  {
    && k <= |statuses|
    && (k < |statuses| ==> tasks == failed)
    && (forall n :: 0 <= n < k ==> statuses[n] == StatusOf(promoted, taskid))
    && (forall n :: k <= n < |statuses| ==> statuses[n] == StatusOf(failed, taskid))
  }

  /** The task side of the record `ProcessSingleTask` keeps of its rounds:
      the task table is the promoted one or the promoted one with the task
      failed, the task failed in round `failedAt`, and the last status read
      is its status in the current table. */
  ghost predicate StatusHistory(promoted: seq<TaskRow>, failed: seq<TaskRow>, tasks: seq<TaskRow>, taskid: int,
                                statuses: seq<Option<Status>>, failedAt: nat)
  {
    && (tasks == promoted || tasks == failed)
    && FailedFrom(promoted, failed, tasks, taskid, statuses, failedAt)
    && (|statuses| > 0 ==> statuses[|statuses| - 1] == StatusOf(tasks, taskid))
  }

  /** Where the failure round stands after one more round that left the
      task table as `tasksAfter`. */
  function NextFailedAt(promoted: seq<TaskRow>, tasksAfter: seq<TaskRow>, count: nat, failedAt: nat): nat {
    if failedAt == count && tasksAfter == promoted then count + 1 else failedAt
  }

  /** The chunk side of that record: the chunk rows are a claimed form of
      `start`, and every id claimed so far is the chunk id of a claimed row. */
  ghost predicate ChunkHistory(start: seq<TaskChunkRow>, rows: seq<TaskChunkRow>, taskid: int, claims: seq<seq<int>>) {
    ClaimedFrom(start, rows, taskid) && IdsProgressed(start, rows, taskid, Flatten(claims))
  }

  /** A round that leaves the task table promoted, or promoted with the
      task failed, and keeps a failed table failed, extends the task side of
      the record by the status read from it. */
  lemma StatusStep(promoted: seq<TaskRow>, failed: seq<TaskRow>, tasksBefore: seq<TaskRow>, tasksAfter: seq<TaskRow>,
                   taskid: int, statuses: seq<Option<Status>>, failedAt: nat)
    requires StatusHistory(promoted, failed, tasksBefore, taskid, statuses, failedAt)
    requires tasksAfter == promoted || tasksAfter == failed
    requires tasksBefore == failed ==> tasksAfter == failed
    ensures StatusHistory(promoted, failed, tasksAfter, taskid, statuses + [StatusOf(tasksAfter, taskid)],
                          NextFailedAt(promoted, tasksAfter, |statuses|, failedAt))
  {
    var s := statuses + [StatusOf(tasksAfter, taskid)];
    assert forall n :: 0 <= n < |statuses| ==> s[n] == statuses[n];
  }

  /** A round that claims with `batchSize` and returns either nothing or
      the claimed ids extends the chunk side of the record by those ids. */
  lemma ChunkStep(start: seq<TaskChunkRow>, before: seq<TaskChunkRow>, taskid: int, batchSize: nat, ids: seq<int>,
                  claims: seq<seq<int>>)
    requires ChunkHistory(start, before, taskid, claims)
    requires ids == [] || ids == ClaimRows(before, taskid, batchSize).ids
    ensures ChunkHistory(start, ClaimRows(before, taskid, batchSize).rows, taskid, claims + [ids])
    ensures Flatten(claims + [ids]) == Flatten(claims) + ids
  {
    var c := ClaimRows(before, taskid, batchSize);
    var prev := Flatten(claims);
    ClaimRound(start, before, taskid, batchSize, prev);
    FlattenAppend(claims, [ids]);
    assert [ids][1..] == [];
    assert Flatten([ids]) == ids;
    assert Flatten(claims + [ids]) == prev + ids;
    if ids == [] {
      IdsProgressedPrefix(start, c.rows, taskid, prev, c.ids);
      assert prev + ids == prev;
    }
  }

  /** The first `count` rounds passed the continue test. */
  ghost predicate RoundsContinue(statuses: seq<Option<Status>>, claims: seq<seq<int>>, batchSize: int, count: nat)
    requires count <= |claims| <= |statuses|
  {
    forall n :: 0 <= n < count ==> ContinueTask(statuses[n], claims[n], batchSize)
  }

  /** Appending a round keeps the rounds before it, and the new round
      continued exactly when its status and claim pass the test. */
  lemma ContinueAppend(statuses: seq<Option<Status>>, claims: seq<seq<int>>, batchSize: int,
                       status: Option<Status>, claimed: seq<int>)
    requires |statuses| == |claims| && RoundsContinue(statuses, claims, batchSize, |claims|)
    ensures RoundsContinue(statuses + [status], claims + [claimed], batchSize, |claims|)
    ensures ContinueTask(status, claimed, batchSize) ==>
      RoundsContinue(statuses + [status], claims + [claimed], batchSize, |claims| + 1)
  {
    var s, c := statuses + [status], claims + [claimed];
    assert forall n :: 0 <= n < |claims| ==> s[n] == statuses[n] && c[n] == claims[n];
  }

  /** The invariant of `ProcessSingleTask`'s loop: the record of the
      rounds so far, which rounds passed the continue test, and the open
      rows the claims have used up. `work` and `end` are the loop's flag
      and its ending so far. */
  ghost predicate TaskLoop(start: seq<TaskChunkRow>, rows: seq<TaskChunkRow>, promoted: seq<TaskRow>, failed: seq<TaskRow>,
                           tasks: seq<TaskRow>, taskid: int, batchSize: int, claims: seq<seq<int>>,
                           statuses: seq<Option<Status>>, failedAt: nat, work: bool, end: TaskEnd)
  {
    && |claims| == |statuses|
    && StatusHistory(promoted, failed, tasks, taskid, statuses, failedAt)
    && ChunkHistory(start, rows, taskid, claims)
    && (work ==> end == Stopped && RoundsContinue(statuses, claims, batchSize, |claims|))
    && (|claims| > 0 ==> RoundsContinue(statuses, claims, batchSize, |claims| - 1))
    && (!work && end == Stopped ==> |claims| >= 1 && !ContinueTask(statuses[|claims| - 1], claims[|claims| - 1], batchSize))
    && OpenCount(rows, taskid) + |Flatten(claims)| <= OpenCount(start, taskid)
  }

  /** A round that did not raise extends the loop's record by its ids and
      the status read after it; the loop goes on exactly when the batch was
      sent and the continue test passed. */
  lemma LoopStep(start: seq<TaskChunkRow>, rows: seq<TaskChunkRow>, rowsAfter: seq<TaskChunkRow>,
                 promoted: seq<TaskRow>, failed: seq<TaskRow>, tasks: seq<TaskRow>, tasksAfter: seq<TaskRow>,
                 taskid: int, batchSize: int, claims: seq<seq<int>>, statuses: seq<Option<Status>>,
                 ids: seq<int>, status: Option<Status>, sending: bool, failedAt: nat)
    requires TaskLoop(start, rows, promoted, failed, tasks, taskid, batchSize, claims, statuses, failedAt, true, Stopped)
    requires tasksAfter == promoted || tasksAfter == failed
    requires tasks == failed ==> tasksAfter == failed
    requires status == StatusOf(tasksAfter, taskid)
    requires ChunkHistory(start, rowsAfter, taskid, claims + [ids])
    requires Flatten(claims + [ids]) == Flatten(claims) + ids
    requires OpenCount(rowsAfter, taskid) + |ids| <= OpenCount(rows, taskid)
    ensures TaskLoop(start, rowsAfter, promoted, failed, tasksAfter, taskid, batchSize, claims + [ids],
                     statuses + [status], NextFailedAt(promoted, tasksAfter, |statuses|, failedAt),
                     !sending && ContinueTask(status, ids, batchSize), if sending then Sending else Stopped)
  {
    StatusStep(promoted, failed, tasks, tasksAfter, taskid, statuses, failedAt);
    ContinueAppend(statuses, claims, batchSize, status, ids);
  }

  /** What the loop's record says once the loop has ended: the method's
      promises, stated on the record. */
  lemma LoopDone(start: seq<TaskChunkRow>, rows: seq<TaskChunkRow>, promoted: seq<TaskRow>, failed: seq<TaskRow>,
                 tasks: seq<TaskRow>, taskid: int, batchSize: int, claims: seq<seq<int>>,
                 statuses: seq<Option<Status>>, failedAt: nat, end: TaskEnd)
    requires TaskLoop(start, rows, promoted, failed, tasks, taskid, batchSize, claims, statuses, failedAt, false, end)
    requires StatusOf(promoted, taskid) != Some(Waiting) && StatusOf(failed, taskid) != Some(Waiting)
    ensures |statuses| == |claims|
    ensures tasks == promoted || tasks == failed
    ensures exists k: nat :: FailedFrom(promoted, failed, tasks, taskid, statuses, k)
    ensures forall n :: 0 <= n < |claims| ==> statuses[n] != Some(Waiting)
    ensures forall n :: 0 <= n < |claims| - 1 ==> ContinueTask(statuses[n], claims[n], batchSize)
    ensures end == Stopped ==>
      && |claims| >= 1
      && !ContinueTask(statuses[|claims| - 1], claims[|claims| - 1], batchSize)
      && statuses[|claims| - 1] == StatusOf(tasks, taskid)
      && (claims[|claims| - 1] == [] || |claims[|claims| - 1]| < batchSize)
    ensures ClaimedFrom(start, rows, taskid) && IdsProgressed(start, rows, taskid, Flatten(claims))
    ensures OpenCount(rows, taskid) + |Flatten(claims)| <= OpenCount(start, taskid)
  {
    assert FailedFrom(promoted, failed, tasks, taskid, statuses, failedAt);
  }

  /** One pass of the `while bln_worktodo` body: `process_single_batch`,
      then `check_and_decide_continue_task`, whose flag is `proceed`. A
      raised claim changes nothing and skips the check. Otherwise the task table stays promoted or
      promoted with the task failed, the round's ids (none, or the claimed
      ids) extend the chunk side of the task's record, and the open count
      drops by at least their number. */
  method TaskRound(store: Store, taskid: int, options: Options, batchSize: int, replies: seq<SyncReply>,
                   ghost start: seq<TaskChunkRow>, ghost promoted: seq<TaskRow>, ghost claims: seq<seq<int>>)
    returns (outcome: BatchOutcome, status: Option<Status>, proceed: bool)
    requires store.tasks == promoted || store.tasks == SetStatus(promoted, taskid, Fail)
    requires ChunkHistory(start, store.taskChunks, taskid, claims)
    modifies store`taskChunks, store`tasks
    ensures outcome.ClaimRaised? ==> store.tasks == old(store.tasks) && store.taskChunks == old(store.taskChunks)
    ensures !outcome.ClaimRaised? ==>
      && (store.tasks == promoted || store.tasks == SetStatus(promoted, taskid, Fail))
      && (old(store.tasks) == SetStatus(promoted, taskid, Fail) ==> store.tasks == old(store.tasks))
      && status == StatusOf(store.tasks, taskid)
      && proceed == ContinueTask(status, outcome.ids, batchSize)
      && ChunkHistory(start, store.taskChunks, taskid, claims + [outcome.ids])
      && Flatten(claims + [outcome.ids]) == Flatten(claims) + outcome.ids
      && OpenCount(store.taskChunks, taskid) + |outcome.ids| <= OpenCount(old(store.taskChunks), taskid)
  {
    ghost var rowsBefore := store.taskChunks;
    SetStatusIdempotent(promoted, taskid, Fail);
    outcome := ProcessSingleBatch(store, taskid, batchSize, options, replies);
    status, proceed := None, false;
    if !outcome.ClaimRaised? {
      status, proceed := CheckAndDecideContinueTask(store, taskid, outcome.ids, batchSize);
      ChunkStep(start, rowsBefore, taskid, batchSize, outcome.ids, claims);
    }
  }

  /** `process_single_task` from `update_task_status` on: promote the task,
      then process batches while `ContinueTask` holds. `replies(n)` answers
      the posts of batch `n`, and `statuses[n]` is the status the continue
      test read after it. Every round but the last continued, and a
      `Stopped` loop stopped on the last round's status and claim. The task
      table is only ever the promoted table or that table with the task
      failed: the rounds before some round `k` read the task's status in the
      promoted table, those from `k` on its status in the failed table, and
      the table is the failed one once `k` is passed. So the task is never
      'waiting' and the loop stops only on a short claim. Every chunk row is
      unchanged or was an 'open' row of the task now in 'progress', and
      every id returned is the chunk id of such a row. */
  method ProcessSingleTask(store: Store, taskid: int, options: Options, batchSize: int, replies: nat -> seq<SyncReply>)
    returns (end: TaskEnd, claims: seq<seq<int>>, statuses: seq<Option<Status>>)
    modifies store`taskChunks, store`tasks
    ensures |statuses| == |claims|
    ensures var promoted := Promote(old(store.tasks), taskid);
      var failed := SetStatus(promoted, taskid, Fail);
      && (store.tasks == promoted || store.tasks == failed)
      && exists k: nat :: FailedFrom(promoted, failed, store.tasks, taskid, statuses, k)
    ensures forall n :: 0 <= n < |claims| ==> statuses[n] != Some(Waiting)
    ensures forall n :: 0 <= n < |claims| - 1 ==> ContinueTask(statuses[n], claims[n], batchSize)
    ensures end == Stopped ==>
      && |claims| >= 1
      && !ContinueTask(statuses[|claims| - 1], claims[|claims| - 1], batchSize)
      && statuses[|claims| - 1] == StatusOf(store.tasks, taskid)
      && (claims[|claims| - 1] == [] || |claims[|claims| - 1]| < batchSize)
    ensures ClaimedFrom(old(store.taskChunks), store.taskChunks, taskid)
    ensures IdsProgressed(old(store.taskChunks), store.taskChunks, taskid, Flatten(claims))
    ensures OpenCount(store.taskChunks, taskid) + |Flatten(claims)| <= OpenCount(old(store.taskChunks), taskid)
  {
    store.PromoteTask(taskid);
    ghost var promoted := store.tasks;
    ghost var failed := SetStatus(promoted, taskid, Fail);
    WaitingUnreachable(old(store.tasks), taskid);
    var work := true;
    end, claims, statuses := Stopped, [], [];
    ghost var failedAt: nat := 0;
    while work
      invariant TaskLoop(old(store.taskChunks), store.taskChunks, promoted, failed, store.tasks, taskid, batchSize,
                         claims, statuses, failedAt, work, end)
      decreases (if work then 1 else 0) + OpenCount(store.taskChunks, taskid)
    {
      ghost var rowsBefore, tasksBefore := store.taskChunks, store.tasks;
      var outcome, status, proceed := TaskRound(store, taskid, options, batchSize, replies(|claims|),
                                       old(store.taskChunks), promoted, claims);
      if outcome.ClaimRaised? {
        end, work := Raised, false;
      } else {
        LoopStep(old(store.taskChunks), rowsBefore, store.taskChunks, promoted, failed, tasksBefore, store.tasks,
                 taskid, batchSize, claims, statuses, outcome.ids, status, outcome.StillSending?, failedAt);
        failedAt := NextFailedAt(promoted, store.tasks, |statuses|, failedAt);
        claims, statuses := claims + [outcome.ids], statuses + [status];
        end := if outcome.StillSending? then Sending else Stopped;
        work := !outcome.StillSending? && proceed;
      }
    }
    LoopDone(old(store.taskChunks), store.taskChunks, promoted, failed, store.tasks, taskid, batchSize,
             claims, statuses, failedAt, end);
  }
}
