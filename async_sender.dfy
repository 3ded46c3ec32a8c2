/** The asynchronous sender: claims chunks of one task, cuts them into work
    batches, posts each batch to the GPU server (splitting it into single
    chunks when the server answers 413), marks failed chunks in the store and
    forwards finished vectors to the receiver. */
module AsyncSender {
  import opened Common
  import opened QueueStore

  // ---------------------------------------------------------------------
  // Startup checks

  /** The environment variables the sender needs, in the order it checks them. */
  const RequiredVars: seq<string> :=
    ["DB_NAME", "DB_USER", "DB_PASSWORD", "DB_HOST", "DB_PORT", "GPU_SERVER_URL", "RECEIVER_EMBED_API", "RECEIVER_AUTH_TOKEN"]

  /** `check_env_vars`: the first required variable that is not set, if any
      (the source raises `EnvironmentError` naming it). `env` is the set of
      names that are set. */
  method CheckEnvVars(env: set<string>) returns (missing: Option<string>)
    ensures missing.None? <==> forall k :: 0 <= k < |RequiredVars| ==> RequiredVars[k] in env
    ensures missing.Some? ==>
      exists k :: (0 <= k < |RequiredVars| && RequiredVars[k] == missing.value
                   && missing.value !in env && forall j :: 0 <= j < k ==> RequiredVars[j] in env)
  {
    for k := 0 to |RequiredVars|
      invariant forall j :: 0 <= j < k ==> RequiredVars[j] in env
    {
      if RequiredVars[k] !in env {
        return Some(RequiredVars[k]);
      }
    }
    return None;
  }

  datatype Startup = Start | TooManyRequests | DivisionByZero

  /** The `__main__` check: `gpubatch / reqbatch` requests would run at once,
      and more than 500 of them is refused with `ValueError`. Python's `/` is
      a true division, taken here as an exact real quotient. */
  function CheckRequestLimit(gpuBatch: int, reqBatch: int): Startup {
    if reqBatch == 0 then DivisionByZero
    else if (gpuBatch as real) / (reqBatch as real) > 500.0 then TooManyRequests
    else Start
  }

  lemma QuotientAbove(a: real, r: real, b: real)
    requires r > 0.0
    ensures a / r > b <==> a > b * r
  {
    var q := a / r;
    assert q * r == a;
    if q > b {
      assert (q - b) * r > 0.0;
    } else {
      assert (b - q) * r >= 0.0;
    }
  }

  /** For a positive request batch, startup is refused exactly when the GPU
      batch exceeds 500 request batches; exactly 500 is allowed. */
  lemma RequestLimitAt500(gpuBatch: int, reqBatch: int)
    requires reqBatch > 0
    ensures CheckRequestLimit(gpuBatch, reqBatch) == Start <==> gpuBatch <= 500 * reqBatch
  {
    QuotientAbove(gpuBatch as real, reqBatch as real, 500.0);
    assert (500 * reqBatch) as real == 500.0 * (reqBatch as real);
  }

  // ---------------------------------------------------------------------
  // The GPU server

  /** The JSON body posted to the GPU server. */
  datatype Request = Request(inputs: seq<string>, normalize: bool, truncate: bool)

  /** What one POST yields: a status code with, for 200, the parsed list of
      vectors, any of which may be JSON `null` (`None`); or an exception
      from the transport or from parsing. */
  datatype Reply = Replied(code: int, vectors: seq<Option<Vector>>) | Raised

  /** The GPU server, as an oracle from request to reply. */
  type Endpoint = Request -> Reply

  /** The texts sent for a batch: `prefix + ' ' + txt` when the task's
      `embed_prefix` is truthy, else the text itself. */
  function Inputs(batch: seq<Chunk>, prefix: Option<string>): (inputs: seq<string>)
    ensures |inputs| == |batch|
  {
    if batch == [] then []
    else [if Truthy(prefix) then prefix.value + " " + batch[0].txt else batch[0].txt] + Inputs(batch[1..], prefix)
  }

  /** Input `i` belongs to chunk `i`: it is the chunk's text, preceded by the
      prefix and one space when the prefix is truthy. */
  lemma {:induction false} InputsCarryText(batch: seq<Chunk>, prefix: Option<string>, i: nat)
    requires i < |batch|
    ensures Truthy(prefix) ==>
      var p := prefix.value;
      |Inputs(batch, prefix)[i]| == |p| + 1 + |batch[i].txt|
      && Inputs(batch, prefix)[i][..|p|] == p && Inputs(batch, prefix)[i][|p|] == ' '
      && Inputs(batch, prefix)[i][|p| + 1..] == batch[i].txt
    ensures !Truthy(prefix) ==> Inputs(batch, prefix)[i] == batch[i].txt
  {
    if i > 0 {
      InputsCarryText(batch[1..], prefix, i - 1);
    } else if Truthy(prefix) {
      var s := prefix.value + " " + batch[0].txt;
      assert s[..|prefix.value|] == prefix.value;
      assert s[|prefix.value| + 1..] == batch[0].txt;
    }
  }

  function GpuRequest(batch: seq<Chunk>, prefix: Option<string>): Request {
    Request(Inputs(batch, prefix), true, true)
  }

  // ---------------------------------------------------------------------
  // The overload splitter (`fetch_gpuserver_url`)

  /** What becomes of one chunk of a batch: returned with the vector the
      server gave it (possibly `None`), marked 'fail' in the store, or
      neither (after an exception). */
  datatype Fate = Embedded(vector: Option<Vector>) | Failed | Dropped

  /** The fate of every chunk of a batch, position by position, and every
      request posted, in order. */
  datatype Resolution = Resolution(fates: seq<Fate>, requests: seq<Request>)

  function Uniform(n: nat, f: Fate): (fs: seq<Fate>)
    ensures |fs| == n && forall i :: 0 <= i < n ==> fs[i] == f
  {
    seq(n, _ => f)
  }

  function EmbeddedAll(vectors: seq<Option<Vector>>, n: nat): (fs: seq<Fate>)
    requires n <= |vectors|
    ensures |fs| == n && forall i :: 0 <= i < n ==> fs[i] == Embedded(vectors[i])
  {
    seq(n, i requires 0 <= i < n => Embedded(vectors[i]))
  }

  /** `fetch_gpuserver_url` on values: post the batch; on 200 pair the vectors
      with the chunks by position (a response shorter than the batch raises
      `IndexError`, which the function catches); on 413 fail a single chunk,
      or re-send a longer batch one chunk at a time; on any other status fail
      every chunk; on an exception do nothing. */
  function Resolve(batch: seq<Chunk>, prefix: Option<string>, endpoint: Endpoint): (r: Resolution)
    ensures |r.fates| == |batch|
    ensures 1 <= |r.requests| <= 1 + |batch|
    ensures |batch| <= 1 ==> |r.requests| == 1
    decreases |batch|, 1, 0
  {
    var request := GpuRequest(batch, prefix);
    match endpoint(request)
    case Raised => Resolution(Uniform(|batch|, Dropped), [request])
    case Replied(code, vectors) =>
      if code == 200 then
        if |vectors| < |batch| then Resolution(Uniform(|batch|, Dropped), [request])
        else Resolution(EmbeddedAll(vectors, |batch|), [request])
      else if code == 413 then
        if |batch| == 1 then Resolution([Failed], [request])
        else
          var each := ResolveEach(batch, |batch|, prefix, endpoint);
          Resolution(each.fates, [request] + each.requests)
      else Resolution(Uniform(|batch|, Failed), [request])
  }

  /** The one-chunk re-sends of the first `j` chunks of an overloaded batch. */
  function ResolveEach(batch: seq<Chunk>, j: nat, prefix: Option<string>, endpoint: Endpoint): (r: Resolution)
    requires |batch| != 1 && j <= |batch|
    ensures |r.fates| == j && |r.requests| == j
    decreases |batch|, 0, j
  {
    if j == 0 then Resolution([], [])
    else
      var before := ResolveEach(batch, j - 1, prefix, endpoint);
      var last := Resolve([batch[j - 1]], prefix, endpoint);
      Resolution(before.fates + last.fates, before.requests + last.requests)
  }

  /** Re-send `i` is the one-chunk batch `[batch[i]]`, and chunk `i` shares its fate. */
  lemma {:induction false} ResolveEachAt(batch: seq<Chunk>, j: nat, prefix: Option<string>, endpoint: Endpoint, i: nat)
    requires |batch| != 1 && i < j <= |batch|
    ensures var r := ResolveEach(batch, j, prefix, endpoint);
      var one := Resolve([batch[i]], prefix, endpoint);
      r.fates[i] == one.fates[0] && r.requests[i] == one.requests[0] && r.requests[i] == GpuRequest([batch[i]], prefix)
  {
    if i < j - 1 {
      ResolveEachAt(batch, j - 1, prefix, endpoint, i);
    }
  }

  /** The first request carries the whole batch. Only a 413 on a batch of two
      or more chunks leads to further requests: then exactly one per chunk, in
      order, each of a single chunk, and a single chunk is never split again,
      so the recursion is at most two deep and at most `1 + |batch|` requests
      are made. */
  lemma RequestsOfResolve(batch: seq<Chunk>, prefix: Option<string>, endpoint: Endpoint)
    ensures var r := Resolve(batch, prefix, endpoint);
      && r.requests[0] == GpuRequest(batch, prefix)
      && (|r.requests| > 1 ==>
            && endpoint(GpuRequest(batch, prefix)).Replied? && endpoint(GpuRequest(batch, prefix)).code == 413
            && |batch| >= 2 && |r.requests| == 1 + |batch|
            && forall i :: 0 <= i < |batch| ==> r.requests[1 + i] == GpuRequest([batch[i]], prefix))
  {
    var r := Resolve(batch, prefix, endpoint);
    if |r.requests| > 1 {
      forall i | 0 <= i < |batch| ensures r.requests[1 + i] == GpuRequest([batch[i]], prefix) {
        ResolveEachAt(batch, |batch|, prefix, endpoint, i);
      }
    }
  }

  /** The fate of each chunk, case by case of the reply to the whole batch:
      200 with enough vectors gives chunk `i` vector `i`; 413 fails a single
      chunk and otherwise gives each chunk the fate of its own re-send; any
      other status fails all; an exception or a short response drops all. */
  lemma FatesOfResolve(batch: seq<Chunk>, prefix: Option<string>, endpoint: Endpoint)
    ensures var fates := Resolve(batch, prefix, endpoint).fates;
      match endpoint(GpuRequest(batch, prefix))
      case Raised => forall i :: 0 <= i < |batch| ==> fates[i] == Dropped
      case Replied(code, vectors) =>
        if code == 200 then
          forall i :: 0 <= i < |batch| ==> fates[i] == if |vectors| < |batch| then Dropped else Embedded(vectors[i])
        else if code == 413 then
          if |batch| == 1 then fates == [Failed]
          else forall i :: 0 <= i < |batch| ==> fates[i] == Resolve([batch[i]], prefix, endpoint).fates[0]
        else forall i :: 0 <= i < |batch| ==> fates[i] == Failed
  {
    match endpoint(GpuRequest(batch, prefix))
    case Raised =>
    case Replied(code, vectors) =>
      if code == 413 && |batch| != 1 {
        forall i | 0 <= i < |batch| ensures Resolve(batch, prefix, endpoint).fates[i] == Resolve([batch[i]], prefix, endpoint).fates[0] {
          ResolveEachAt(batch, |batch|, prefix, endpoint, i);
        }
      }
  }

  /** An endpoint that never raises and answers every 200 with a vector per
      input. */
  ghost predicate WellBehaved(endpoint: Endpoint) {
    forall request :: endpoint(request) != Raised
      && (endpoint(request).code == 200 ==> |endpoint(request).vectors| >= |request.inputs|)
  }

  /** Against a well-behaved endpoint no chunk is dropped: each one is either
      returned with a vector or marked 'fail', whatever the 413 answers. */
  lemma NoneDroppedIfWellBehaved(batch: seq<Chunk>, prefix: Option<string>, endpoint: Endpoint)
    requires WellBehaved(endpoint)
    ensures forall i :: 0 <= i < |batch| ==> Resolve(batch, prefix, endpoint).fates[i] != Dropped
  {
    var request := GpuRequest(batch, prefix);
    assert endpoint(request) != Raised;
    FatesOfResolve(batch, prefix, endpoint);
    if endpoint(request).code == 413 && |batch| != 1 {
      forall i | 0 <= i < |batch| ensures Resolve([batch[i]], prefix, endpoint).fates[0] != Dropped {
        assert endpoint(GpuRequest([batch[i]], prefix)) != Raised;
      }
    }
  }

  /** A reply with no JSON `null` among its 200 vectors. */
  predicate NoNullVectors(reply: Reply) {
    reply.Replied? ==> forall j :: 0 <= j < |reply.vectors| ==> reply.vectors[j].Some?
  }

  /** An endpoint that never answers with a null vector. */
  ghost predicate NullFree(endpoint: Endpoint) {
    forall request :: NoNullVectors(endpoint(request))
  }

  /** Against a null-free endpoint every embedded chunk has a vector, also
      after a 413 split. */
  lemma EmbeddedHaveVectors(batch: seq<Chunk>, prefix: Option<string>, endpoint: Endpoint)
    requires NullFree(endpoint)
    ensures forall i :: 0 <= i < |batch| && Resolve(batch, prefix, endpoint).fates[i].Embedded? ==>
      Resolve(batch, prefix, endpoint).fates[i].vector.Some?
  {
    var request := GpuRequest(batch, prefix);
    assert NoNullVectors(endpoint(request));
    FatesOfResolve(batch, prefix, endpoint);
    if endpoint(request).Replied? && endpoint(request).code == 413 && |batch| != 1 {
      forall i | 0 <= i < |batch|
        ensures var one := Resolve([batch[i]], prefix, endpoint).fates[0]; one.Embedded? ==> one.vector.Some?
      {
        assert NoNullVectors(endpoint(GpuRequest([batch[i]], prefix)));
        FatesOfResolve([batch[i]], prefix, endpoint);
      }
    }
  }

  function Unit(c: Chunk, vector: Option<Vector>): ResultUnit {
    ResultUnit(c.chunkid, c.seqNo, c.publid, vector)
  }

  /** The list returned for a batch: the embedded chunks, in batch order. */
  function Kept(batch: seq<Chunk>, fates: seq<Fate>): seq<ResultUnit>
    requires |fates| == |batch|
  {
    if batch == [] then []
    else (if fates[0].Embedded? then [Unit(batch[0], fates[0].vector)] else []) + Kept(batch[1..], fates[1..])
  }

  /** The chunk ids set to 'fail', in batch order. */
  function FailedIds(batch: seq<Chunk>, fates: seq<Fate>): seq<int>
    requires |fates| == |batch|
  {
    if batch == [] then []
    else (if fates[0].Failed? then [batch[0].chunkid] else []) + FailedIds(batch[1..], fates[1..])
  }

  lemma {:induction false} KeptAppend(b1: seq<Chunk>, f1: seq<Fate>, b2: seq<Chunk>, f2: seq<Fate>)
    requires |f1| == |b1| && |f2| == |b2|
    ensures Kept(b1 + b2, f1 + f2) == Kept(b1, f1) + Kept(b2, f2)
    ensures FailedIds(b1 + b2, f1 + f2) == FailedIds(b1, f1) + FailedIds(b2, f2)
  {
    if b1 != [] {
      assert (b1 + b2)[1..] == b1[1..] + b2 && (f1 + f2)[1..] == f1[1..] + f2;
      KeptAppend(b1[1..], f1[1..], b2, f2);
    } else {
      assert b1 + b2 == b2 && f1 + f2 == f2;
    }
  }

  /** The number of chunks neither returned nor marked 'fail'. */
  function DroppedCount(fates: seq<Fate>): nat {
    if fates == [] then 0 else (if fates[0].Dropped? then 1 else 0) + DroppedCount(fates[1..])
  }

  /** Every returned unit carries the chunk id, seq and publid of a chunk of
      the batch and the vector that chunk's fate gave it; every failed id is
      a chunk id of the batch; and returned, failed and dropped chunks
      together are the whole batch. */
  lemma {:induction false} KeptFromBatch(batch: seq<Chunk>, fates: seq<Fate>)
    requires |fates| == |batch|
    ensures |Kept(batch, fates)| + |FailedIds(batch, fates)| + DroppedCount(fates) == |batch|
    ensures forall u :: u in Kept(batch, fates) ==>
      exists i :: 0 <= i < |batch| && fates[i] == Embedded(u.vector) && u == Unit(batch[i], u.vector)
    ensures forall id :: id in FailedIds(batch, fates) ==> id in Ids(batch)
  {
    if batch != [] {
      KeptFromBatch(batch[1..], fates[1..]);
      forall u | u in Kept(batch[1..], fates[1..])
        ensures exists i :: 0 <= i < |batch| && fates[i] == Embedded(u.vector) && u == Unit(batch[i], u.vector)
      {
        var i :| 0 <= i < |batch[1..]| && fates[1..][i] == Embedded(u.vector) && u == Unit(batch[1..][i], u.vector);
        assert batch[i + 1] == batch[1..][i] && fates[i + 1] == fates[1..][i];
      }
      assert Ids(batch) == [batch[0].chunkid] + Ids(batch[1..]);
    }
  }

  predicate DistinctIds(batch: seq<Chunk>) {
    forall i, j :: 0 <= i < j < |batch| ==> batch[i].chunkid != batch[j].chunkid
  }

  /** With distinct chunk ids (as the store's primary key gives), no chunk is
      both returned and marked 'fail' by the same call. */
  lemma {:induction false} KeptAndFailedDisjoint(batch: seq<Chunk>, fates: seq<Fate>)
    requires |fates| == |batch| && DistinctIds(batch)
    ensures forall u :: u in Kept(batch, fates) ==> u.chunkid !in FailedIds(batch, fates)
  {
    if batch != [] {
      var rest, restFates := batch[1..], fates[1..];
      assert DistinctIds(rest) by {
        forall i, j | 0 <= i < j < |rest| ensures rest[i].chunkid != rest[j].chunkid {
          assert rest[i] == batch[i + 1] && rest[j] == batch[j + 1];
        }
      }
      KeptAndFailedDisjoint(rest, restFates);
      KeptFromBatch(rest, restFates);
      assert batch[0].chunkid !in Ids(rest) by {
        forall i | 0 <= i < |rest| ensures Ids(rest)[i] != batch[0].chunkid { assert rest[i] == batch[i + 1]; }
      }
      forall u | u in Kept(rest, restFates) ensures u.chunkid != batch[0].chunkid {
        var i :| 0 <= i < |rest| && restFates[i] == Embedded(u.vector) && u == Unit(rest[i], u.vector);
        assert rest[i] == batch[i + 1];
      }
    }
  }

  lemma {:induction false} KeptUniform(batch: seq<Chunk>, f: Fate)
    requires !f.Embedded?
    ensures Kept(batch, Uniform(|batch|, f)) == []
    ensures FailedIds(batch, Uniform(|batch|, f)) == if f == Failed then Ids(batch) else []
  {
    if batch != [] {
      assert Uniform(|batch|, f)[1..] == Uniform(|batch| - 1, f);
      KeptUniform(batch[1..], f);
    }
  }

  lemma {:induction false} KeptEmbeddedAll(batch: seq<Chunk>, vectors: seq<Option<Vector>>)
    requires |batch| <= |vectors|
    ensures var k := Kept(batch, EmbeddedAll(vectors, |batch|));
      |k| == |batch| && forall i :: 0 <= i < |batch| ==> k[i] == Unit(batch[i], vectors[i])
    ensures FailedIds(batch, EmbeddedAll(vectors, |batch|)) == []
  {
    if batch != [] {
      assert EmbeddedAll(vectors, |batch|)[1..] == EmbeddedAll(vectors[1..], |batch| - 1);
      KeptEmbeddedAll(batch[1..], vectors[1..]);
    }
  }

  /** On 200 the result is the batch in order, chunk `i` with vector `i` of
      the response, and nothing is written to the store. */
  lemma SuccessKeepsOrder(batch: seq<Chunk>, prefix: Option<string>, endpoint: Endpoint, vectors: seq<Option<Vector>>)
    requires endpoint(GpuRequest(batch, prefix)) == Replied(200, vectors) && |vectors| >= |batch|
    ensures var r := Resolve(batch, prefix, endpoint);
      var k := Kept(batch, r.fates);
      |k| == |batch| && (forall i :: 0 <= i < |batch| ==> k[i] == Unit(batch[i], vectors[i]))
      && FailedIds(batch, r.fates) == []
  {
    KeptEmbeddedAll(batch, vectors);
  }

  /** The 200 branch's loop: write vector `i` of the response into the
      record of chunk `i`. A response with fewer vectors than chunks raises
      `IndexError` part-way, which is `paired == false`. */
  method PairVectors(batch: seq<Chunk>, vectors: seq<Option<Vector>>) returns (paired: bool, toReturn: seq<ResultUnit>)
    ensures paired <==> |vectors| >= |batch|
    ensures paired ==> |toReturn| == |batch| && forall i :: 0 <= i < |batch| ==> toReturn[i] == Unit(batch[i], vectors[i])
  {
    toReturn := seq(|batch|, i requires 0 <= i < |batch| => Unit(batch[i], None));
    var index := 0;
    while index < |toReturn|
      invariant 0 <= index <= |toReturn| == |batch| && index <= |vectors|
      invariant forall i :: 0 <= i < |batch| ==>
        toReturn[i] == Unit(batch[i], if i < index then vectors[i] else None)
    {
      if index >= |vectors| {
        return false, toReturn;
      }
      toReturn := toReturn[index := Unit(batch[index], vectors[index])];
      index := index + 1;
    }
    paired := true;
  }

  /** `fetch_gpuserver_url`: post the batch and return the records of the
      embedded chunks; the task-chunk table ends with exactly the chunks the
      call fails set to 'fail'. */
  method FetchGpuServer(store: Store, batch: seq<Chunk>, options: Options, endpoint: Endpoint)
    returns (results: seq<ResultUnit>)
    modifies store`taskChunks
    ensures var r := Resolve(batch, options.embedPrefix, endpoint);
      && results == Kept(batch, r.fates)
      && store.taskChunks == FailRows(old(store.taskChunks), FailedIds(batch, r.fates))
    decreases |batch|, 1
  {
    var prefix := options.embedPrefix;
    var reply := endpoint(GpuRequest(batch, prefix));
    FailRowsCompose(store.taskChunks, [], []);
    if reply.Raised? {
      KeptUniform(batch, Dropped);
      return [];
    }
    if reply.code == 200 {
      var paired, toReturn := PairVectors(batch, reply.vectors);
      if !paired {
        // the IndexError is caught: nothing returned, nothing written
        KeptUniform(batch, Dropped);
        return [];
      }
      KeptEmbeddedAll(batch, reply.vectors);
      return toReturn;
    }
    if reply.code == 413 {
      if |batch| == 1 {
        store.MarkFailed([batch[0].chunkid]);
        return [];
      }
      results := ResendEach(store, batch, options, endpoint);
      return;
    }
    store.MarkFailed(Ids(batch));
    KeptUniform(batch, Failed);
    return [];
  }

  /** The 413 branch for any batch but a single chunk: re-send each chunk on its own,
      in order, and concatenate what the re-sends return. */
  method ResendEach(store: Store, batch: seq<Chunk>, options: Options, endpoint: Endpoint)
    returns (divided: seq<ResultUnit>)
    requires |batch| != 1
    modifies store`taskChunks
    ensures var each := ResolveEach(batch, |batch|, options.embedPrefix, endpoint);
      && divided == Kept(batch, each.fates)
      && store.taskChunks == FailRows(old(store.taskChunks), FailedIds(batch, each.fates))
    decreases |batch|, 0
  {
    var prefix := options.embedPrefix;
    divided := [];
    var j := 0;
    while j < |batch|
      invariant 0 <= j <= |batch|
      invariant var each := ResolveEach(batch, j, prefix, endpoint);
        && divided == Kept(batch[..j], each.fates)
        && store.taskChunks == FailRows(old(store.taskChunks), FailedIds(batch[..j], each.fates))
    {
      ghost var before := ResolveEach(batch, j, prefix, endpoint);
      var res := FetchGpuServer(store, [batch[j]], options, endpoint);
      if res != [] {
        divided := divided + res;
      }
      ghost var last := Resolve([batch[j]], prefix, endpoint);
      assert batch[..j + 1] == batch[..j] + [batch[j]];
      KeptAppend(batch[..j], before.fates, [batch[j]], last.fates);
      FailRowsCompose(old(store.taskChunks), FailedIds(batch[..j], before.fates), FailedIds([batch[j]], last.fates));
      j := j + 1;
    }
    assert batch[..|batch|] == batch;
  }

  // ---------------------------------------------------------------------
  // The claim step (`fetch_chunks`)

  /** Claim up to `needed` open rows of the task and fetch those of the
      claimed chunks whose text is not null. `None` is the store's error for a
      negative LIMIT; claimed chunks without text stay 'progress'. */
  method FetchChunks(store: Store, needed: int, taskid: int) returns (fetched: Option<seq<Chunk>>)
    modifies store`taskChunks
    ensures needed < 0 ==> fetched == None && store.taskChunks == old(store.taskChunks)
    ensures needed >= 0 ==>
      var c := ClaimRows(old(store.taskChunks), taskid, needed);
      && store.taskChunks == c.rows
      && fetched == Some(SelectTexts(store.chunks, c.ids))
  {
    var ids := store.Claim(taskid, needed);
    if ids.None? {
      return None;
    }
    if ids.value == [] {
      assert SelectTexts(store.chunks, []) == [] by { SelectTextsExact(store.chunks, []); }
      return Some([]);
    }
    return Some(SelectTexts(store.chunks, ids.value));
  }

  // ---------------------------------------------------------------------
  // One iteration of the driver loop (`process_embedding_task`)

  /** An asyncio task running `FetchGpuServer` on a batch with the options of
      the iteration that launched it. */
  datatype Job = Job(batch: seq<Chunk>, options: Options)

  /** Number of chunks held by in-flight jobs. */
  function InFlight(jobs: seq<Job>): nat {
    if jobs == [] then 0 else |jobs[0].batch| + InFlight(jobs[1..])
  }

  predicate AtMost(jobs: seq<Job>, w: int) {
    forall k :: 0 <= k < |jobs| ==> |jobs[k].batch| <= w
  }

  /** One new job per batch: `[create_task(fetch_gpuserver_url(..., b, options)) for b in batches]`. */
  function Launch(batches: seq<seq<Chunk>>, options: Options): (jobs: seq<Job>)
    ensures |jobs| == |batches| && forall k :: 0 <= k < |batches| ==> jobs[k] == Job(batches[k], options)
  {
    seq(|batches|, k requires 0 <= k < |batches| => Job(batches[k], options))
  }

  function Batches(jobs: seq<Job>): seq<seq<Chunk>> {
    if jobs == [] then [] else [jobs[0].batch] + Batches(jobs[1..])
  }

  lemma {:induction false} InFlightAppend(a: seq<Job>, b: seq<Job>)
    ensures InFlight(a + b) == InFlight(a) + InFlight(b)
  {
    if a != [] {
      assert (a + b)[1..] == a[1..] + b;
      InFlightAppend(a[1..], b);
    } else {
      assert a + b == b;
    }
  }

  lemma {:induction false} InFlightBelow(jobs: seq<Job>, w: int)
    requires AtMost(jobs, w)
    ensures InFlight(jobs) <= |jobs| * w
  {
    if jobs != [] {
      InFlightBelow(jobs[1..], w);
    }
  }

  lemma {:induction false} LaunchedFlatten(batches: seq<seq<Chunk>>, options: Options)
    ensures Batches(Launch(batches, options)) == batches
    ensures InFlight(Launch(batches, options)) == |Flatten(batches)|
  {
    if batches != [] {
      assert Launch(batches, options)[1..] == Launch(batches[1..], options);
      LaunchedFlatten(batches[1..], options);
    }
  }

  /** The partition of a claim: the jobs launched hold the claimed chunks,
      in order, none dropped, each job at most `w` chunks, all but the last
      exactly `w`. */
  lemma PartitionCoversClaim(claimed: seq<Chunk>, w: nat, options: Options)
    requires w > 0
    ensures var jobs := Launch(Slices(claimed, w), options);
      && Flatten(Batches(jobs)) == claimed
      && InFlight(jobs) == |claimed|
      && (forall k :: 0 <= k < |jobs| ==> 0 < |jobs[k].batch| <= w)
      && (forall k :: 0 <= k < |jobs| - 1 ==> |jobs[k].batch| == w)
  {
    SlicesFlatten(claimed, w);
    SlicesShape(claimed, w);
    LaunchedFlatten(Slices(claimed, w), options);
  }

  /** Back-pressure: if every in-flight job holds at most `w` chunks and a
      claim of at most `target - |pending| * w` chunks is partitioned into new
      jobs, the chunks in flight stay within `target`. */
  lemma ReplenishWithinTarget(pending: seq<Job>, claimed: seq<Chunk>, w: nat, target: int, options: Options)
    requires w > 0 && AtMost(pending, w) && |claimed| <= target - |pending| * w
    ensures var jobs := pending + Launch(Slices(claimed, w), options);
      AtMost(jobs, w) && InFlight(jobs) <= target
  {
    PartitionCoversClaim(claimed, w, options);
    InFlightBelow(pending, w);
    InFlightAppend(pending, Launch(Slices(claimed, w), options));
  }

  /** The driver's back-pressure bound: when fewer than `taskBatchSize` jobs
      are in flight, each of at most `workBatchSize` chunks, the claim of
      `taskBatchSize - |jobs| * workBatchSize` rows and its partition keep
      every job within `workBatchSize` chunks and all of them within
      `taskBatchSize` chunks (chunk ids being the key of `embed_chunk`). */
  lemma ClaimKeepsInFlightWithinTarget(jobs: seq<Job>, rows: seq<TaskChunkRow>, chunks: seq<ChunkRow>,
                                       taskid: int, taskBatchSize: int, workBatchSize: nat, options: Options)
    requires workBatchSize > 0 && AtMost(jobs, workBatchSize) && UniqueChunkIds(chunks)
    requires taskBatchSize - |jobs| * workBatchSize > 0
    ensures var claimed := SelectTexts(chunks, ClaimRows(rows, taskid, taskBatchSize - |jobs| * workBatchSize).ids);
      var next := jobs + Launch(Slices(claimed, workBatchSize), options);
      AtMost(next, workBatchSize) && InFlight(next) <= taskBatchSize
  {
    var needed := taskBatchSize - |jobs| * workBatchSize;
    var ids := ClaimRows(rows, taskid, needed).ids;
    ClaimCount(rows, taskid, needed);
    SelectTextsBound(chunks, ids);
    ReplenishWithinTarget(jobs, SelectTexts(chunks, ids), workBatchSize, taskBatchSize, options);
  }

  /** The most jobs, one request each, the driver can hold for a chunk target
      of `taskBatchSize` and a work batch size of `w`: `ceil(taskBatchSize / w)`. */
  function JobCeiling(taskBatchSize: int, w: nat): int
    requires w > 0
  {
    (taskBatchSize + w - 1) / w
  }

  /** The claim of `taskBatchSize - |jobs| * w` rows and its partition never
      take the number of jobs, hence of requests in flight, past the ceiling:
      the chunks fetched are at most the rows claimed, which are at most
      `needed`, and they make `ceil(|claimed| / w)` new jobs. */
  lemma ClaimKeepsJobsWithinCeiling(jobs: seq<Job>, rows: seq<TaskChunkRow>, chunks: seq<ChunkRow>,
                                    taskid: int, taskBatchSize: int, w: nat, options: Options)
    requires w > 0 && UniqueChunkIds(chunks)
    requires taskBatchSize - |jobs| * w > 0
    ensures var claimed := SelectTexts(chunks, ClaimRows(rows, taskid, taskBatchSize - |jobs| * w).ids);
      |jobs + Launch(Slices(claimed, w), options)| <= JobCeiling(taskBatchSize, w)
  {
    var needed: nat := taskBatchSize - |jobs| * w;
    var ids := ClaimRows(rows, taskid, needed).ids;
    var claimed := SelectTexts(chunks, ids);
    ClaimCount(rows, taskid, needed);
    SelectTextsBound(chunks, ids);
    SlicesCount(claimed, w);
    DivMono(|claimed| + w - 1, needed + w - 1, w);
    DivAddMultiple(needed + w - 1, |jobs|, w);
    assert needed + w - 1 + |jobs| * w == taskBatchSize + w - 1;
  }

  /** The start-up check bounds the requests in flight: whenever it lets the
      process start, the job ceiling is at most 500. */
  lemma JobCeilingAt500(taskBatchSize: int, w: nat)
    requires w > 0 && CheckRequestLimit(taskBatchSize, w) == Start
    ensures JobCeiling(taskBatchSize, w) <= 500
  {
    RequestLimitAt500(taskBatchSize, w);
    if taskBatchSize + w - 1 >= 0 {
      DivMono(taskBatchSize + w - 1, (w - 1) + 500 * w, w);
      DivAddMultiple(w - 1, 500, w);
      DivSmall(w - 1, w);
    } else {
      var x := taskBatchSize + w - 1;
      assert x == (x / w) * w + x % w;
      assert (x / w) * w < 0;
    }
  }

  /** The jobs `asyncio.wait` reports still pending. `finished[k]` is what
      job `k` returned if it completed within the wait, else `None`. */
  function StillPending(pending: seq<Job>, finished: seq<Option<seq<ResultUnit>>>): (r: seq<Job>)
    requires |finished| == |pending|
    ensures |r| <= |pending| && forall k :: 0 <= k < |r| ==> r[k] in pending
  {
    if pending == [] then []
    else (if finished[0].None? then [pending[0]] else []) + StillPending(pending[1..], finished[1..])
  }

  /** Reaping keeps the bound on the size of every in-flight job. */
  lemma ReapKeepsJobSize(pending: seq<Job>, finished: seq<Option<seq<ResultUnit>>>, w: int)
    requires |finished| == |pending| && AtMost(pending, w)
    ensures AtMost(StillPending(pending, finished), w)
  {
    var r := StillPending(pending, finished);
    forall k | 0 <= k < |r| ensures |r[k].batch| <= w {
      var m :| 0 <= m < |pending| && pending[m] == r[k];
    }
  }

  /** The results of the completed jobs, concatenated. */
  function Completed(finished: seq<Option<seq<ResultUnit>>>): seq<ResultUnit> {
    if finished == [] then []
    else (if finished[0].Some? then finished[0].value else []) + Completed(finished[1..])
  }

  function CompletedCount(finished: seq<Option<seq<ResultUnit>>>): nat {
    if finished == [] then 0 else (if finished[0].Some? then 1 else 0) + CompletedCount(finished[1..])
  }

  /** A job is counted as pending or as completed, never both, never lost. */
  lemma {:induction false} ReapSplits(pending: seq<Job>, finished: seq<Option<seq<ResultUnit>>>)
    requires |finished| == |pending|
    ensures |StillPending(pending, finished)| + CompletedCount(finished) == |pending|
  {
    if pending != [] {
      ReapSplits(pending[1..], finished[1..]);
    }
  }

  /** The receiver payload of `fetch_receiver_url`. */
  function ReceiverPayload(results: seq<ResultUnit>, taskid: int): Payload
    requires results != [] && results[0].vector.Some?
  {
    Payload(Success, taskid, results, NoStatistics, Some(|results[0].vector.value|), "no needed")
  }

  /** How an iteration ended: options unavailable (sleep 10), nothing needed
      (sleep 10), the claim failed (loop again at once), new jobs launched,
      enough jobs in flight, or `range()` raised on a zero work batch size. */
  datatype StepEnd = Backoff | NothingNeeded | FetchFailed | Replenished | Saturated | ZeroStep

  datatype Step = Step(pending: seq<Job>, forwarded: Option<Payload>, end: StepEnd)

  /** The fates `FetchGpuServer` gives the chunks of a job's batch, and
      what the job returns when it completes: its embedded chunks. */
  function JobFates(job: Job, endpoint: Endpoint): (fates: seq<Fate>)
    ensures |fates| == |job.batch|
  {
    Resolve(job.batch, job.options.embedPrefix, endpoint).fates
  }

  function JobResult(job: Job, endpoint: Endpoint): seq<ResultUnit> {
    Kept(job.batch, JobFates(job, endpoint))
  }

  /** The outcome of the bounded wait: `finished[k]` is `None` while job `k`
      is still running and its `JobResult` once it has completed. Which jobs
      have completed is the schedule's choice; what they return is not. */
  predicate WaitOutcome(pending: seq<Job>, finished: seq<Option<seq<ResultUnit>>>, endpoint: Endpoint) {
    |finished| == |pending| &&
    forall k :: 0 <= k < |finished| && finished[k].Some? ==> finished[k].value == JobResult(pending[k], endpoint)
  }

  /** A unit of the collected results is chunk `i` of the batch of a
      completed job `k` (same chunk id, seq and publid), which that job
      embedded with the unit's vector. */
  predicate FromCompletedJob(u: ResultUnit, pending: seq<Job>, finished: seq<Option<seq<ResultUnit>>>, endpoint: Endpoint)
    requires |finished| == |pending|
  {
    exists k, i :: 0 <= k < |pending| && finished[k].Some? && 0 <= i < |pending[k].batch| &&
      JobFates(pending[k], endpoint)[i] == Embedded(u.vector) && u == Unit(pending[k].batch[i], u.vector)
  }

  predicate AllFromCompletedJobs(results: seq<ResultUnit>, pending: seq<Job>, finished: seq<Option<seq<ResultUnit>>>,
                                 endpoint: Endpoint)
    requires |finished| == |pending|
  {
    forall u :: u in results ==> FromCompletedJob(u, pending, finished, endpoint)
  }

  /** Every result collected from the completed jobs belongs to a chunk of
      one of those jobs' batches, with the vector its job gave it
      (`KeptFromBatch` on each job). */
  lemma {:induction false} CompletedFromJobs(pending: seq<Job>, finished: seq<Option<seq<ResultUnit>>>, endpoint: Endpoint)
    requires WaitOutcome(pending, finished, endpoint)
    ensures AllFromCompletedJobs(Completed(finished), pending, finished, endpoint)
  {
    if pending != [] {
      var ptail, ftail := pending[1..], finished[1..];
      assert WaitOutcome(ptail, ftail, endpoint) by {
        forall k | 0 <= k < |ftail| && ftail[k].Some? ensures ftail[k].value == JobResult(ptail[k], endpoint) {
          assert ftail[k] == finished[k + 1] && ptail[k] == pending[k + 1];
        }
      }
      CompletedFromJobs(ptail, ftail, endpoint);
      var head := if finished[0].Some? then finished[0].value else [];
      assert Completed(finished) == head + Completed(ftail);
      var job := pending[0];
      var fates := JobFates(job, endpoint);
      KeptFromBatch(job.batch, fates);
      forall u | u in Completed(finished) ensures FromCompletedJob(u, pending, finished, endpoint) {
        if u in head {
          var i :| 0 <= i < |job.batch| && fates[i] == Embedded(u.vector) && u == Unit(job.batch[i], u.vector);
          assert 0 <= 0 < |pending| && finished[0].Some? && JobFates(pending[0], endpoint)[i] == Embedded(u.vector)
            && u == Unit(pending[0].batch[i], u.vector);
        } else {
          assert u in Completed(ftail);
          var k, i :| 0 <= k < |ptail| && ftail[k].Some? && 0 <= i < |ptail[k].batch| &&
            JobFates(ptail[k], endpoint)[i] == Embedded(u.vector) && u == Unit(ptail[k].batch[i], u.vector);
          assert ptail[k] == pending[k + 1] && ftail[k] == finished[k + 1];
        }
      }
    }
  }

  /** Against an endpoint that never answers a 200 with a null vector,
      every collected result carries a vector: the receiver payload's
      dimension is then defined. */
  lemma CompletedVectorsIfNullFree(pending: seq<Job>, finished: seq<Option<seq<ResultUnit>>>, endpoint: Endpoint)
    requires WaitOutcome(pending, finished, endpoint) && NullFree(endpoint)
    ensures forall u :: u in Completed(finished) ==> u.vector.Some?
  {
    CompletedFromJobs(pending, finished, endpoint);
    forall u | u in Completed(finished) ensures u.vector.Some? {
      assert FromCompletedJob(u, pending, finished, endpoint);
      var k, i :| 0 <= k < |pending| && finished[k].Some? && 0 <= i < |pending[k].batch| &&
        JobFates(pending[k], endpoint)[i] == Embedded(u.vector) && u == Unit(pending[k].batch[i], u.vector);
      var job := pending[k];
      EmbeddedHaveVectors(job.batch, job.options.embedPrefix, endpoint);
      var fates := Resolve(job.batch, job.options.embedPrefix, endpoint).fates;
      assert fates == JobFates(job, endpoint);
      assert fates[i].Embedded? && fates[i].vector == u.vector;
    }
  }

  /** The reaping half of a pass: the jobs still pending, and, when the
      completed jobs returned anything, one success payload carrying all of
      it, every unit of which belongs to a chunk of a completed job. The
      payload takes its dimension from the first result's vector: when that
      vector is `null`, `len` raises inside the receiver task and nothing is
      posted (`forwarded` is `None`), which cannot happen against a
      null-free endpoint. */
  method Reap(taskid: int, pending: seq<Job>, finished: seq<Option<seq<ResultUnit>>>, endpoint: Endpoint)
    returns (still: seq<Job>, forwarded: Option<Payload>)
    requires WaitOutcome(pending, finished, endpoint)
    ensures still == (if pending == [] then [] else StillPending(pending, finished))
    ensures var results := if pending == [] then [] else Completed(finished);
      && (forwarded.Some? <==> results != [] && results[0].vector.Some?)
      && (forwarded.Some? ==> forwarded == Some(ReceiverPayload(results, taskid)))
      && (NullFree(endpoint) ==> (forwarded.Some? <==> results != []))
      && AllFromCompletedJobs(results, pending, finished, endpoint)
  {
    still, forwarded := pending, None;
    if pending != [] {
      still := StillPending(pending, finished);
      var results := Completed(finished);
      CompletedFromJobs(pending, finished, endpoint);
      if NullFree(endpoint) {
        CompletedVectorsIfNullFree(pending, finished, endpoint);
        if results != [] {
          assert results[0] in results;
        }
      }
      if results != [] && results[0].vector.Some? {
        forwarded := Some(ReceiverPayload(results, taskid));
      }
    }
  }

  /** How `Refill` ends from the jobs `reaped`: saturated, nothing needed or
      a failed claim with the jobs and the chunk table as they were;
      otherwise the claim of `needed` rows is made, and on a positive work
      batch size the claimed chunks are launched in slices of that size. */
  predicate Refilled(rows: seq<TaskChunkRow>, rowsAfter: seq<TaskChunkRow>, chunks: seq<ChunkRow>, taskid: int,
                     taskBatchSize: int, workBatchSize: int, reaped: seq<Job>, options: Options,
                     jobs: seq<Job>, end: StepEnd)
  {
    && (|reaped| >= taskBatchSize ==> jobs == reaped && end == Saturated && rowsAfter == rows)
    && (|reaped| < taskBatchSize ==>
          var needed := taskBatchSize - |reaped| * workBatchSize;
          && (needed == 0 ==> jobs == reaped && end == NothingNeeded && rowsAfter == rows)
          && (needed < 0 ==> jobs == reaped && end == FetchFailed && rowsAfter == rows)
          && (needed > 0 ==>
                var c := ClaimRows(rows, taskid, needed);
                && rowsAfter == c.rows
                && (workBatchSize == 0 ==> jobs == reaped && end == ZeroStep)
                && (workBatchSize < 0 ==> jobs == reaped && end == Replenished)
                && (workBatchSize > 0 ==>
                      jobs == reaped + Launch(Slices(SelectTexts(chunks, c.ids), workBatchSize), options)
                      && end == Replenished)))
  }

  /** The second half of a pass, once the options are known: when fewer than
      `taskBatchSize` jobs are in flight, claim `taskBatchSize - |jobs| *
      workBatchSize` chunks and launch one job per `workBatchSize` slice. */
  method Refill(store: Store, taskid: int, taskBatchSize: int, workBatchSize: int,
                reaped: seq<Job>, options: Options) returns (jobs: seq<Job>, end: StepEnd)
    modifies store`taskChunks
    ensures Refilled(old(store.taskChunks), store.taskChunks, store.chunks, taskid, taskBatchSize, workBatchSize,
                     reaped, options, jobs, end)
    ensures end != Replenished || workBatchSize <= 0 ==> jobs == reaped
    ensures workBatchSize > 0 && UniqueChunkIds(store.chunks) && |reaped| <= JobCeiling(taskBatchSize, workBatchSize) ==>
      |jobs| <= JobCeiling(taskBatchSize, workBatchSize)
  {
    jobs := reaped;
    if |reaped| >= taskBatchSize {
      return reaped, Saturated;
    }
    var needed := taskBatchSize - |reaped| * workBatchSize;
    if needed == 0 {
      return reaped, NothingNeeded;
    }
    ghost var rowsBefore := store.taskChunks;
    var fetched := FetchChunks(store, needed, taskid);
    if fetched.None? {
      return reaped, FetchFailed;
    }
    if workBatchSize == 0 {
      // `range(0, n, 0)` raises ValueError, which ends the loop
      return reaped, ZeroStep;
    }
    if workBatchSize < 0 {
      // a negative step gives an empty range: no batch is launched
      return reaped, Replenished;
    }
    if UniqueChunkIds(store.chunks) {
      ClaimKeepsJobsWithinCeiling(reaped, rowsBefore, store.chunks, taskid, taskBatchSize, workBatchSize, options);
    }
    jobs := reaped + Launch(Slices(fetched.value, workBatchSize), options);
    end := Replenished;
  }

  /** One pass of the `while bln_todo` loop: lock the task's options, reap
      the completed jobs and forward their results in one payload, then, when
      the options were found, `Refill`. `finished` is the outcome of the
      bounded wait against `endpoint`. */
  method DriverStep(store: Store, taskid: int, taskBatchSize: int, workBatchSize: int,
                    pending: seq<Job>, finished: seq<Option<seq<ResultUnit>>>, endpoint: Endpoint) returns (step: Step)
    requires WaitOutcome(pending, finished, endpoint)
    modifies store`tasks, store`taskChunks
    ensures var lock := LockOptions(old(store.tasks), taskid, Progress);
      && store.tasks == lock.tasks
      && var reaped := if pending == [] then [] else StillPending(pending, finished);
      && var results := if pending == [] then [] else Completed(finished);
      && (step.forwarded.Some? <==> results != [] && results[0].vector.Some?)
      && (step.forwarded.Some? ==> step.forwarded == Some(ReceiverPayload(results, taskid)))
      && (NullFree(endpoint) ==> (step.forwarded.Some? <==> results != []))
      && AllFromCompletedJobs(results, pending, finished, endpoint)
      && (lock.options.None? ==> step == Step(reaped, step.forwarded, Backoff) && store.taskChunks == old(store.taskChunks))
      && (lock.options.Some? ==>
            Refilled(old(store.taskChunks), store.taskChunks, store.chunks, taskid, taskBatchSize, workBatchSize,
                     reaped, lock.options.value, step.pending, step.end))
    ensures step.end != Replenished || workBatchSize <= 0 ==> |step.pending| <= |pending|
    ensures workBatchSize > 0 && UniqueChunkIds(store.chunks) && |pending| <= JobCeiling(taskBatchSize, workBatchSize) ==>
      |step.pending| <= JobCeiling(taskBatchSize, workBatchSize)
  {
    var options := store.LockTaskOptions(taskid, Progress);
    var tasks, forwarded := Reap(taskid, pending, finished, endpoint);
    if options.None? {
      return Step(tasks, forwarded, Backoff);
    }
    var jobs, end := Refill(store, taskid, taskBatchSize, workBatchSize, tasks, options.value);
    return Step(jobs, forwarded, end);
  }
}
