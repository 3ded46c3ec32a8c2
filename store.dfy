/** The relational queue store the senders work against: the tables `task`,
    `embed_task_chunk` and `embed_chunk`, and the effect of every SQL
    statement the senders run on them. A table is the sequence of its rows
    in physical (ctid) order; where a statement leaves the choice of rows or
    their order to the database, the model takes table order. */
module QueueStore {
  import opened Common

  /** The parsed `action_options` of a task; only the keys the senders read. */
  datatype Options = Options(embedPrefix: Option<string>, embeddingModel: Option<string>)

  /** A row of `task(id, status, action, action_options)`. */
  datatype TaskRow = TaskRow(id: int, status: Status, action: string, options: Options)

  /** A row of `embed_task_chunk(taskid, chunkid, status)`. */
  datatype TaskChunkRow = TaskChunkRow(taskid: int, chunkid: int, status: Status)

  /** A row of `embed_chunk(id, txt, publid, seq)`; `txt` may be null. */
  datatype ChunkRow = ChunkRow(id: int, txt: Option<string>, publid: int, seqNo: int)

  // ---------------------------------------------------------------------
  // embed_task_chunk: claiming

  predicate Claimable(row: TaskChunkRow, taskid: int) {
    row.status == Open && row.taskid == taskid
  }

  /** Number of rows of the task still 'open'. */
  function OpenCount(rows: seq<TaskChunkRow>, taskid: int): nat {
    if rows == [] then 0
    else (if Claimable(rows[0], taskid) then 1 else 0) + OpenCount(rows[1..], taskid)
  }

  /** The chunk ids of the rows a statement changed, in table order. */
  function ChangedIds(before: seq<TaskChunkRow>, after: seq<TaskChunkRow>): seq<int>
    requires |before| == |after|
  {
    if before == [] then []
    else (if before[0] != after[0] then [before[0].chunkid] else []) + ChangedIds(before[1..], after[1..])
  }

  datatype Claim = Claim(rows: seq<TaskChunkRow>, ids: seq<int>)

  /** The claim statement of both senders: set at most `limit` 'open' rows of
      the task to 'progress' and return their chunk ids
      (`UPDATE ... WHERE ctid IN (SELECT ctid ... LIMIT n) RETURNING chunkid`). */
  function ClaimRows(rows: seq<TaskChunkRow>, taskid: int, limit: nat): (c: Claim)
    ensures |c.rows| == |rows|
  {
    if rows == [] then Claim([], [])
    else if limit > 0 && Claimable(rows[0], taskid) then
      var rest := ClaimRows(rows[1..], taskid, limit - 1);
      Claim([rows[0].(status := Progress)] + rest.rows, [rows[0].chunkid] + rest.ids)
    else
      var rest := ClaimRows(rows[1..], taskid, limit);
      Claim([rows[0]] + rest.rows, rest.ids)
  }

  /** A claim takes as many rows as it may: the limit, or all open rows of the
      task when fewer are open; the open count drops by exactly that many. */
  lemma {:induction false} ClaimCount(rows: seq<TaskChunkRow>, taskid: int, limit: nat)
    ensures var c := ClaimRows(rows, taskid, limit);
      && |c.ids| == (if limit <= OpenCount(rows, taskid) then limit else OpenCount(rows, taskid))
      && OpenCount(c.rows, taskid) == OpenCount(rows, taskid) - |c.ids|
  {
    if rows != [] {
      if limit > 0 && Claimable(rows[0], taskid) {
        ClaimCount(rows[1..], taskid, limit - 1);
      } else {
        ClaimCount(rows[1..], taskid, limit);
      }
      var c := ClaimRows(rows, taskid, limit);
      assert c.rows[1..] == ClaimRows(rows[1..], taskid, if limit > 0 && Claimable(rows[0], taskid) then limit - 1 else limit).rows;
    }
  }

  /** A claim changes only 'open' rows of the task, each to 'progress', and
      returns exactly the chunk ids of the rows it changed, in table order. */
  lemma {:induction false} ClaimChangesOnlyOpenRows(rows: seq<TaskChunkRow>, taskid: int, limit: nat)
    ensures var c := ClaimRows(rows, taskid, limit);
      && (forall i :: 0 <= i < |rows| ==>
            c.rows[i] == rows[i] || (Claimable(rows[i], taskid) && c.rows[i] == rows[i].(status := Progress)))
      && c.ids == ChangedIds(rows, c.rows)
  {
    if rows != [] {
      var lim := if limit > 0 && Claimable(rows[0], taskid) then limit - 1 else limit;
      ClaimChangesOnlyOpenRows(rows[1..], taskid, lim);
      var c := ClaimRows(rows, taskid, limit);
      var rest := ClaimRows(rows[1..], taskid, lim);
      assert c.rows[1..] == rest.rows;
      forall i | 0 < i < |rows|
        ensures c.rows[i] == rows[i] || (Claimable(rows[i], taskid) && c.rows[i] == rows[i].(status := Progress))
      {
        assert c.rows[i] == rest.rows[i - 1] && rows[i] == rows[1..][i - 1];
      }
    }
  }

  /** With nothing open for the task, or a limit of 0, a claim changes nothing
      and returns no id (so a second claim right after one that took every
      open row returns `[]`). */
  lemma {:induction false} ClaimNothing(rows: seq<TaskChunkRow>, taskid: int, limit: nat)
    requires limit == 0 || OpenCount(rows, taskid) == 0
    ensures ClaimRows(rows, taskid, limit) == Claim(rows, [])
  {
    if rows != [] {
      ClaimNothing(rows[1..], taskid, limit);
    }
  }

  /** Row `cur` is row `start` claimed for the task: it was 'open' and is
      now 'progress', nothing else about it changed. */
  predicate Progressed(start: TaskChunkRow, cur: TaskChunkRow, taskid: int) {
    Claimable(start, taskid) && cur == start.(status := Progress)
  }

  /** `cur` is `start` after any number of claims for the task: every row
      is unchanged or was claimed. */
  predicate ClaimedFrom(start: seq<TaskChunkRow>, cur: seq<TaskChunkRow>, taskid: int) {
    && |cur| == |start|
    && forall i :: 0 <= i < |start| ==> cur[i] == start[i] || Progressed(start[i], cur[i], taskid)
  }

  /** The chunk ids of the rows that went from `start` to `cur` by a claim
      for the task, in table order. */
  function ProgressedIds(start: seq<TaskChunkRow>, cur: seq<TaskChunkRow>, taskid: int): seq<int>
    requires |cur| == |start|
  {
    if start == [] then []
    else (if Progressed(start[0], cur[0], taskid) then [start[0].chunkid] else [])
         + ProgressedIds(start[1..], cur[1..], taskid)
  }

  /** Every id in `ids` is the chunk id of a row that went from `start` to
      `cur` by a claim for the task. */
  predicate IdsProgressed(start: seq<TaskChunkRow>, cur: seq<TaskChunkRow>, taskid: int, ids: seq<int>) {
    |cur| == |start| && forall id :: id in ids ==> id in ProgressedIds(start, cur, taskid)
  }

  /** An id is among the progressed ids exactly when some claimed row has it. */
  lemma {:induction false} ProgressedIdsAt(start: seq<TaskChunkRow>, cur: seq<TaskChunkRow>, taskid: int, id: int)
    requires |cur| == |start|
    ensures id in ProgressedIds(start, cur, taskid) <==>
      exists i :: 0 <= i < |start| && Progressed(start[i], cur[i], taskid) && start[i].chunkid == id
  {
    if start != [] {
      ProgressedIdsAt(start[1..], cur[1..], taskid, id);
      if exists i :: 0 <= i < |start| && Progressed(start[i], cur[i], taskid) && start[i].chunkid == id {
        var i :| 0 <= i < |start| && Progressed(start[i], cur[i], taskid) && start[i].chunkid == id;
        if i > 0 {
          assert Progressed(start[1..][i - 1], cur[1..][i - 1], taskid);
        }
      }
      if id in ProgressedIds(start[1..], cur[1..], taskid) {
        var i :| 0 <= i < |start[1..]| && Progressed(start[1..][i], cur[1..][i], taskid) && start[1..][i].chunkid == id;
        assert Progressed(start[i + 1], cur[i + 1], taskid);
      }
    }
  }

  /** Rows claimed in `before` and still claimed in `after` keep their ids
      among the progressed ones. */
  lemma {:induction false} ProgressedIdsKeep(start: seq<TaskChunkRow>, before: seq<TaskChunkRow>, after: seq<TaskChunkRow>,
                                            taskid: int)
    requires |before| == |start| && |after| == |start|
    requires forall i :: 0 <= i < |start| && Progressed(start[i], before[i], taskid) ==> after[i] == before[i]
    ensures forall id :: id in ProgressedIds(start, before, taskid) ==> id in ProgressedIds(start, after, taskid)
  {
    if start != [] {
      forall i | 0 <= i < |start[1..]| && Progressed(start[1..][i], before[1..][i], taskid)
        ensures after[1..][i] == before[1..][i]
      {
        assert Progressed(start[i + 1], before[i + 1], taskid);
      }
      ProgressedIdsKeep(start[1..], before[1..], after[1..], taskid);
    }
  }

  /** Each id `ChangedIds` reports is the chunk id of a row that differs. */
  lemma {:induction false} ChangedIdsAt(before: seq<TaskChunkRow>, after: seq<TaskChunkRow>, id: int)
    requires |before| == |after| && id in ChangedIds(before, after)
    ensures exists i :: 0 <= i < |before| && before[i] != after[i] && before[i].chunkid == id
  {
    if before[0] != after[0] && before[0].chunkid == id {
      assert before[0] != after[0];
    } else {
      ChangedIdsAt(before[1..], after[1..], id);
      var i :| 0 <= i < |before[1..]| && before[1..][i] != after[1..][i] && before[1..][i].chunkid == id;
      assert before[i + 1] != after[i + 1];
    }
  }

  /** One more claim keeps the table a claimed form of `start`, and adds
      the ids it returns to those whose rows were claimed; a row claimed
      earlier is 'progress' and cannot be claimed again. */
  lemma ClaimRound(start: seq<TaskChunkRow>, before: seq<TaskChunkRow>, taskid: int, limit: nat, prev: seq<int>)
    requires ClaimedFrom(start, before, taskid) && IdsProgressed(start, before, taskid, prev)
    ensures var c := ClaimRows(before, taskid, limit);
      ClaimedFrom(start, c.rows, taskid) && IdsProgressed(start, c.rows, taskid, prev + c.ids)
  {
    var c := ClaimRows(before, taskid, limit);
    ClaimChangesOnlyOpenRows(before, taskid, limit);
    ProgressedIdsKeep(start, before, c.rows, taskid);
    forall id | id in c.ids
      ensures id in ProgressedIds(start, c.rows, taskid)
    {
      ChangedIdsAt(before, c.rows, id);
      var i :| 0 <= i < |before| && before[i] != c.rows[i] && before[i].chunkid == id;
      assert Progressed(start[i], c.rows[i], taskid);
      ProgressedIdsAt(start, c.rows, taskid, id);
    }
  }

  /** Claimed ids stay claimed when the list of ids shrinks. */
  lemma IdsProgressedPrefix(start: seq<TaskChunkRow>, cur: seq<TaskChunkRow>, taskid: int, prev: seq<int>, more: seq<int>)
    requires IdsProgressed(start, cur, taskid, prev + more)
    ensures IdsProgressed(start, cur, taskid, prev)
  {
    forall id | id in prev
      ensures id in ProgressedIds(start, cur, taskid)
    {
      assert id in prev + more;
    }
  }

  // ---------------------------------------------------------------------
  // embed_task_chunk: failing

  /** `UPDATE embed_task_chunk SET status = 'fail' WHERE chunkid = ANY(ids)`:
      the filter is on the chunk id alone, whatever the task or the status. */
  function FailRows(rows: seq<TaskChunkRow>, ids: seq<int>): (r: seq<TaskChunkRow>)
    ensures |r| == |rows|
    ensures forall i :: 0 <= i < |rows| ==>
      r[i] == if rows[i].chunkid in ids then rows[i].(status := Fail) else rows[i]
  {
    if rows == [] then []
    else [if rows[0].chunkid in ids then rows[0].(status := Fail) else rows[0]] + FailRows(rows[1..], ids)
  }

  /** Failing `a` and then `b` is failing `a + b`; failing twice is failing once. */
  lemma {:induction false} FailRowsCompose(rows: seq<TaskChunkRow>, a: seq<int>, b: seq<int>)
    ensures FailRows(FailRows(rows, a), b) == FailRows(rows, a + b)
    ensures FailRows(FailRows(rows, a), a) == FailRows(rows, a)
    ensures FailRows(rows, []) == rows
  {
    if rows != [] {
      FailRowsCompose(rows[1..], a, b);
      assert FailRows(rows, a)[1..] == FailRows(rows[1..], a);
    }
  }

  // ---------------------------------------------------------------------
  // embed_chunk

  predicate HasText(row: ChunkRow, ids: seq<int>) {
    row.id in ids && row.txt.Some?
  }

  function Fetched(row: ChunkRow): Chunk
    requires row.txt.Some?
  {
    Chunk(row.id, row.txt.value, row.publid, row.seqNo)
  }

  /** `SELECT id, txt, publid, seq FROM embed_chunk WHERE id = ANY(ids) AND txt is not null`. */
  function SelectTexts(chunks: seq<ChunkRow>, ids: seq<int>): (r: seq<Chunk>)
    ensures |r| <= |chunks|
    ensures forall c :: c in r ==> c.chunkid in ids
  {
    if chunks == [] then []
    else if HasText(chunks[0], ids) then [Fetched(chunks[0])] + SelectTexts(chunks[1..], ids)
    else SelectTexts(chunks[1..], ids)
  }

  /** The selection holds a record for exactly the rows with a wanted id and a
      non-null text, with their fields unchanged; it is empty exactly when no
      wanted chunk has text. */
  lemma {:induction false} SelectTextsExact(chunks: seq<ChunkRow>, ids: seq<int>)
    ensures forall c :: c in SelectTexts(chunks, ids) <==>
      exists k :: 0 <= k < |chunks| && HasText(chunks[k], ids) && c == Fetched(chunks[k])
    ensures SelectTexts(chunks, ids) == [] <==> forall k :: 0 <= k < |chunks| ==> !HasText(chunks[k], ids)
  {
    if chunks != [] {
      SelectTextsExact(chunks[1..], ids);
      forall c ensures c in SelectTexts(chunks, ids) <==>
        exists k :: 0 <= k < |chunks| && HasText(chunks[k], ids) && c == Fetched(chunks[k])
      {
        if c in SelectTexts(chunks, ids) && !(HasText(chunks[0], ids) && c == Fetched(chunks[0])) {
          var k :| 0 <= k < |chunks[1..]| && HasText(chunks[1..][k], ids) && c == Fetched(chunks[1..][k]);
          assert chunks[k + 1] == chunks[1..][k];
        }
        if exists k :: 0 <= k < |chunks| && HasText(chunks[k], ids) && c == Fetched(chunks[k]) {
          var k :| 0 <= k < |chunks| && HasText(chunks[k], ids) && c == Fetched(chunks[k]);
          if k > 0 { assert chunks[1..][k - 1] == chunks[k]; }
        }
      }
      if forall k :: 0 <= k < |chunks[1..]| ==> !HasText(chunks[1..][k], ids) {
        forall k | 0 < k < |chunks| ensures !HasText(chunks[k], ids) { assert chunks[k] == chunks[1..][k - 1]; }
      }
    }
  }

  /** The sync sender's form of the same statement: the matching rows
      themselves, as the tuples `(id, txt, publid, seq)`. */
  function MatchingRows(chunks: seq<ChunkRow>, ids: seq<int>): (r: seq<ChunkRow>)
    ensures forall k :: 0 <= k < |r| ==> r[k].txt.Some?
  {
    if chunks == [] then []
    else (if HasText(chunks[0], ids) then [chunks[0]] else []) + MatchingRows(chunks[1..], ids)
  }

  /** Both forms fetch the same rows in the same order. */
  lemma {:induction false} SelectTextsOfRows(chunks: seq<ChunkRow>, ids: seq<int>)
    ensures var rows := MatchingRows(chunks, ids);
      |SelectTexts(chunks, ids)| == |rows|
      && forall k :: 0 <= k < |rows| ==> SelectTexts(chunks, ids)[k] == Fetched(rows[k])
  {
    if chunks != [] {
      SelectTextsOfRows(chunks[1..], ids);
    }
  }

  /** `embed_chunk.id` is the table's key. */
  predicate UniqueChunkIds(chunks: seq<ChunkRow>) {
    forall i, j :: 0 <= i < j < |chunks| ==> chunks[i].id != chunks[j].id
  }

  lemma {:induction false} DistinctWithin(xs: seq<int>, ys: seq<int>)
    requires forall i, j :: 0 <= i < j < |xs| ==> xs[i] != xs[j]
    requires forall i :: 0 <= i < |xs| ==> xs[i] in ys
    ensures |xs| <= |ys|
  {
    if xs != [] {
      var k :| 0 <= k < |ys| && ys[k] == xs[0];
      var rest := ys[..k] + ys[k + 1..];
      forall i | 0 <= i < |xs[1..]| ensures xs[1..][i] in rest {
        assert xs[1..][i] == xs[i + 1] != xs[0];
        var m :| 0 <= m < |ys| && ys[m] == xs[i + 1];
        if m < k { assert rest[m] == ys[m]; } else { assert rest[m - 1] == ys[m]; }
      }
      DistinctWithin(xs[1..], rest);
    }
  }

  function RowIds(chunks: seq<ChunkRow>): (r: seq<int>)
    ensures |r| == |chunks| && forall k :: 0 <= k < |chunks| ==> r[k] == chunks[k].id
  {
    if chunks == [] then [] else [chunks[0].id] + RowIds(chunks[1..])
  }

  /** The rows after the first of a table with unique ids have unique ids,
      none of them the first row's. */
  lemma UniqueChunkIdsTail(chunks: seq<ChunkRow>)
    requires chunks != [] && UniqueChunkIds(chunks)
    ensures UniqueChunkIds(chunks[1..])
    ensures RowIds(chunks) == [chunks[0].id] + RowIds(chunks[1..])
    ensures chunks[0].id !in RowIds(chunks[1..])
  {
    var tail := chunks[1..];
    forall i, j | 0 <= i < j < |tail| ensures tail[i].id != tail[j].id {
      assert tail[i] == chunks[i + 1] && tail[j] == chunks[j + 1];
    }
    forall k | 0 <= k < |tail| ensures RowIds(tail)[k] != chunks[0].id {
      assert tail[k] == chunks[k + 1];
    }
  }

  lemma {:induction false} SelectTextsDistinct(chunks: seq<ChunkRow>, ids: seq<int>)
    requires UniqueChunkIds(chunks)
    ensures forall i :: 0 <= i < |SelectTexts(chunks, ids)| ==> SelectTexts(chunks, ids)[i].chunkid in RowIds(chunks)
    ensures forall i, j :: 0 <= i < j < |SelectTexts(chunks, ids)| ==>
      SelectTexts(chunks, ids)[i].chunkid != SelectTexts(chunks, ids)[j].chunkid
  {
    if chunks != [] {
      var tail := chunks[1..];
      UniqueChunkIdsTail(chunks);
      SelectTextsDistinct(tail, ids);
      var rest := SelectTexts(tail, ids);
      var r := SelectTexts(chunks, ids);
      if HasText(chunks[0], ids) {
        assert r == [Fetched(chunks[0])] + rest;
        forall i | 0 <= i < |r| ensures r[i].chunkid in RowIds(chunks) {
          if i > 0 { assert r[i] == rest[i - 1]; }
        }
        forall i, j | 0 <= i < j < |r| ensures r[i].chunkid != r[j].chunkid {
          assert r[j] == rest[j - 1];
          assert rest[j - 1].chunkid in RowIds(tail);
          if i > 0 { assert r[i] == rest[i - 1]; }
        }
      } else {
        assert r == rest;
      }
    }
  }

  /** With unique chunk ids, a selection is no longer than the id list that
      asked for it. */
  lemma SelectTextsBound(chunks: seq<ChunkRow>, ids: seq<int>)
    requires UniqueChunkIds(chunks)
    ensures |SelectTexts(chunks, ids)| <= |ids|
  {
    var r := SelectTexts(chunks, ids);
    SelectTextsDistinct(chunks, ids);
    var xs := Ids(r);
    forall i, j | 0 <= i < j < |xs| ensures xs[i] != xs[j] {
      assert xs[i] == r[i].chunkid && xs[j] == r[j].chunkid;
    }
    forall i | 0 <= i < |xs| ensures xs[i] in ids {
      assert r[i] in r;
    }
    DistinctWithin(xs, ids);
  }

  // ---------------------------------------------------------------------
  // task

  predicate Startable(row: TaskRow, id: int) {
    row.id == id && (row.status == Open || row.status == Progress)
  }

  /** `SELECT status FROM task WHERE id = ...`, first row. */
  function StatusOf(tasks: seq<TaskRow>, id: int): Option<Status> {
    if tasks == [] then None
    else if tasks[0].id == id then Some(tasks[0].status)
    else StatusOf(tasks[1..], id)
  }

  datatype Lock = Lock(tasks: seq<TaskRow>, options: Option<Options>)

  /** The statement of the async sender's `get_task_options`: set the status of
      the task to `newStatus` if it is 'open' or 'progress', returning the
      options of the (first) updated row. */
  function LockOptions(tasks: seq<TaskRow>, id: int, newStatus: Status): (l: Lock)
    ensures |l.tasks| == |tasks|
  {
    if tasks == [] then Lock([], None)
    else
      var rest := LockOptions(tasks[1..], id, newStatus);
      if Startable(tasks[0], id) then Lock([tasks[0].(status := newStatus)] + rest.tasks, Some(tasks[0].options))
      else Lock([tasks[0]] + rest.tasks, rest.options)
  }

  /** Exactly the 'open' or 'progress' rows of the task get the new status;
      every other row is unchanged. */
  lemma {:induction false} LockOptionsRows(tasks: seq<TaskRow>, id: int, newStatus: Status)
    ensures var l := LockOptions(tasks, id, newStatus);
      forall k :: 0 <= k < |tasks| ==>
        l.tasks[k] == if Startable(tasks[k], id) then tasks[k].(status := newStatus) else tasks[k]
  {
    if tasks != [] {
      LockOptionsRows(tasks[1..], id, newStatus);
      var l := LockOptions(tasks, id, newStatus);
      var rest := LockOptions(tasks[1..], id, newStatus);
      assert l.tasks[1..] == rest.tasks;
      forall k | 0 < k < |tasks|
        ensures l.tasks[k] == if Startable(tasks[k], id) then tasks[k].(status := newStatus) else tasks[k]
      {
        assert tasks[k] == tasks[1..][k - 1] && l.tasks[k] == rest.tasks[k - 1];
      }
    }
  }

  /** Options come back iff the task exists in status 'open' or 'progress',
      and then they are those of its first such row. */
  lemma {:induction false} LockOptionsFound(tasks: seq<TaskRow>, id: int, newStatus: Status)
    ensures var l := LockOptions(tasks, id, newStatus);
      && (l.options.Some? <==> exists k :: 0 <= k < |tasks| && Startable(tasks[k], id))
      && (forall k :: 0 <= k < |tasks| && Startable(tasks[k], id) && (forall j :: 0 <= j < k ==> !Startable(tasks[j], id))
            ==> l.options == Some(tasks[k].options))
  {
    if tasks != [] {
      LockOptionsFound(tasks[1..], id, newStatus);
      var l := LockOptions(tasks, id, newStatus);
      if exists k :: 0 <= k < |tasks| && Startable(tasks[k], id) {
        var k :| 0 <= k < |tasks| && Startable(tasks[k], id);
        if k > 0 { assert Startable(tasks[1..][k - 1], id); }
      }
      if l.options.Some? && !Startable(tasks[0], id) {
        var k :| 0 <= k < |tasks[1..]| && Startable(tasks[1..][k], id);
        assert Startable(tasks[k + 1], id);
      }
      forall k | 0 <= k < |tasks| && Startable(tasks[k], id) && (forall j :: 0 <= j < k ==> !Startable(tasks[j], id))
        ensures l.options == Some(tasks[k].options)
      {
        if k > 0 {
          assert !Startable(tasks[0], id);
          assert Startable(tasks[1..][k - 1], id);
          forall j | 0 <= j < k - 1 ensures !Startable(tasks[1..][j], id) { assert tasks[1..][j] == tasks[j + 1]; }
        }
      }
    }
  }

  /** Locking with 'progress' a second time returns the same options and
      changes nothing more. */
  lemma {:induction false} LockProgressIdempotent(tasks: seq<TaskRow>, id: int)
    ensures var once := LockOptions(tasks, id, Progress);
      LockOptions(once.tasks, id, Progress) == once
  {
    if tasks != [] {
      LockProgressIdempotent(tasks[1..], id);
      var once := LockOptions(tasks, id, Progress);
      assert once.tasks[1..] == LockOptions(tasks[1..], id, Progress).tasks;
    }
  }

  /** Set the status of every row of the task to `status`. */
  function SetStatus(tasks: seq<TaskRow>, id: int, status: Status): (r: seq<TaskRow>)
    ensures |r| == |tasks|
    ensures forall k :: 0 <= k < |tasks| ==> r[k] == if tasks[k].id == id then tasks[k].(status := status) else tasks[k]
  {
    if tasks == [] then []
    else [if tasks[0].id == id then tasks[0].(status := status) else tasks[0]] + SetStatus(tasks[1..], id, status)
  }

  /** After setting a status by id, an existing task reads back with that status. */
  lemma {:induction false} SetStatusReadsBack(tasks: seq<TaskRow>, id: int, status: Status)
    requires exists k :: 0 <= k < |tasks| && tasks[k].id == id
    ensures StatusOf(SetStatus(tasks, id, status), id) == Some(status)
  {
    if tasks[0].id != id {
      var k :| 0 <= k < |tasks| && tasks[k].id == id;
      assert tasks[1..][k - 1] == tasks[k];
      SetStatusReadsBack(tasks[1..], id, status);
      assert SetStatus(tasks, id, status)[1..] == SetStatus(tasks[1..], id, status);
    }
  }

  /** Setting the same status twice is setting it once. */
  lemma SetStatusIdempotent(tasks: seq<TaskRow>, id: int, status: Status)
    ensures SetStatus(SetStatus(tasks, id, status), id, status) == SetStatus(tasks, id, status)
  {
    var once := SetStatus(tasks, id, status);
    var twice := SetStatus(once, id, status);
    assert forall k :: 0 <= k < |tasks| ==> twice[k] == once[k];
  }

  /** After setting a status, the task reads back with that status or not
      at all: no other status can be read. */
  lemma {:induction false} SetStatusReadsOnly(tasks: seq<TaskRow>, id: int, status: Status)
    ensures StatusOf(SetStatus(tasks, id, status), id) in {None, Some(status)}
  {
    if tasks != [] {
      SetStatusReadsOnly(tasks[1..], id, status);
      assert SetStatus(tasks, id, status)[1..] == SetStatus(tasks[1..], id, status);
    }
  }

  /** The statement of the sync sender's `update_task_status`:
      `UPDATE task SET status = 'progress' WHERE id = ... AND NOT status = 'progress'`. */
  function Promote(tasks: seq<TaskRow>, id: int): seq<TaskRow> {
    if tasks == [] then []
    else [if tasks[0].id == id && tasks[0].status != Progress then tasks[0].(status := Progress) else tasks[0]]
         + Promote(tasks[1..], id)
  }

  /** The guard `NOT status = 'progress'` makes no difference: every status of
      the task, 'waiting', 'done' and 'fail' included, becomes 'progress', no
      other task is touched, and promoting twice is promoting once. */
  lemma {:induction false} PromoteIsSetProgress(tasks: seq<TaskRow>, id: int)
    ensures Promote(tasks, id) == SetStatus(tasks, id, Progress)
    ensures Promote(Promote(tasks, id), id) == Promote(tasks, id)
    ensures (exists k :: 0 <= k < |tasks| && tasks[k].id == id) ==> StatusOf(Promote(tasks, id), id) == Some(Progress)
  {
    if tasks != [] {
      PromoteIsSetProgress(tasks[1..], id);
      assert Promote(tasks, id)[1..] == Promote(tasks[1..], id);
    }
    if exists k :: 0 <= k < |tasks| && tasks[k].id == id {
      SetStatusReadsBack(tasks, id, Progress);
    }
  }

  /** `get_unfinished_tasks`' row filter. */
  predicate Unfinished(row: TaskRow, id: Option<int>, action: string) {
    && (row.status == Open || row.status == Progress)
    && row.action == action
    && (id.Some? ==> row.id == id.value)
  }

  function WithStatus(tasks: seq<TaskRow>, status: Status, id: Option<int>, action: string): (r: seq<TaskRow>)
    ensures forall k :: 0 <= k < |r| ==> r[k].status == status && r[k] in tasks
  {
    if tasks == [] then []
    else (if tasks[0].status == status && Unfinished(tasks[0], id, action) then [tasks[0]] else [])
         + WithStatus(tasks[1..], status, id, action)
  }

  /** `SELECT id, action_options FROM task WHERE (status = 'open' OR status =
      'progress') AND action = ... [AND id = ...] ORDER BY status ASC`:
      'open' sorts before 'progress'; within one status, table order. */
  function UnfinishedTasks(tasks: seq<TaskRow>, id: Option<int>, action: string): seq<TaskRow> {
    WithStatus(tasks, Open, id, action) + WithStatus(tasks, Progress, id, action)
  }

  lemma {:induction false} WithStatusExact(tasks: seq<TaskRow>, status: Status, id: Option<int>, action: string)
    ensures forall row :: row in WithStatus(tasks, status, id, action) <==>
      row in tasks && row.status == status && Unfinished(row, id, action)
  {
    if tasks != [] {
      WithStatusExact(tasks[1..], status, id, action);
      assert tasks == [tasks[0]] + tasks[1..];
    }
  }

  /** The query returns exactly the unfinished rows asked for, and every
      'open' one comes before every 'progress' one. */
  lemma UnfinishedTasksExact(tasks: seq<TaskRow>, id: Option<int>, action: string)
    ensures forall row :: row in UnfinishedTasks(tasks, id, action) <==> row in tasks && Unfinished(row, id, action)
    ensures var r := UnfinishedTasks(tasks, id, action);
      forall i, j :: 0 <= i < j < |r| && r[j].status == Open ==> r[i].status == Open
  {
    WithStatusExact(tasks, Open, id, action);
    WithStatusExact(tasks, Progress, id, action);
  }

  // ---------------------------------------------------------------------

  /** The database: the three tables, updated in place by the statements above. */
  class Store {
    var tasks: seq<TaskRow>
    var taskChunks: seq<TaskChunkRow>
    var chunks: seq<ChunkRow>

    constructor (tasks: seq<TaskRow>, taskChunks: seq<TaskChunkRow>, chunks: seq<ChunkRow>)
      ensures this.tasks == tasks && this.taskChunks == taskChunks && this.chunks == chunks
    {
      this.tasks := tasks;
      this.taskChunks := taskChunks;
      this.chunks := chunks;
    }

    /** The claim statement with the caller's LIMIT; PostgreSQL rejects a
        negative LIMIT ("LIMIT must not be negative"), which is `None` here. */
    method Claim(taskid: int, limit: int) returns (ids: Option<seq<int>>)
      modifies this`taskChunks
      ensures limit < 0 ==> ids == None && taskChunks == old(taskChunks)
      ensures limit >= 0 ==>
        && ids == Some(ClaimRows(old(taskChunks), taskid, limit).ids)
        && taskChunks == ClaimRows(old(taskChunks), taskid, limit).rows
    {
      if limit < 0 {
        return None;
      }
      var c := ClaimRows(taskChunks, taskid, limit);
      taskChunks := c.rows;
      ids := Some(c.ids);
    }

    method MarkFailed(ids: seq<int>)
      modifies this`taskChunks
      ensures taskChunks == FailRows(old(taskChunks), ids)
    {
      taskChunks := FailRows(taskChunks, ids);
    }

    method LockTaskOptions(id: int, newStatus: Status) returns (options: Option<Options>)
      modifies this`tasks
      ensures var l := LockOptions(old(tasks), id, newStatus); tasks == l.tasks && options == l.options
    {
      var l := LockOptions(tasks, id, newStatus);
      tasks := l.tasks;
      options := l.options;
    }

    method PromoteTask(id: int)
      modifies this`tasks
      ensures tasks == Promote(old(tasks), id)
    {
      tasks := Promote(tasks, id);
    }

    method SetTaskStatus(id: int, status: Status)
      modifies this`tasks
      ensures tasks == SetStatus(old(tasks), id, status)
    {
      tasks := SetStatus(tasks, id, status);
    }
  }
}
