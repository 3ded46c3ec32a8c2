/** The serving side's result assembly: embed a task's chunks slice by slice,
    backing off the slice size after each CUDA out-of-memory error, pair the
    vectors with the chunks, and build the payloads posted to the receiver. */
module EmbedTasks {
  import opened Common

  // ---------------------------------------------------------------------
  // `paste_embeddings`

  /** `[{chunkid, seq, publid, vector} for chunk, vector in zip(chunks, embeddings)]`. */
  function Paste(chunks: seq<Chunk>, embeddings: seq<Option<Vector>>): seq<ResultUnit> {
    if chunks == [] || embeddings == [] then []
    else [ResultUnit(chunks[0].chunkid, chunks[0].seqNo, chunks[0].publid, embeddings[0])]
         + Paste(chunks[1..], embeddings[1..])
  }

  /** The zip stops at the shorter list; record `i` has chunk `i`'s id, seq and
      publid and embedding `i`. */
  lemma {:induction false} PasteZips(chunks: seq<Chunk>, embeddings: seq<Option<Vector>>)
    ensures |Paste(chunks, embeddings)| == if |chunks| <= |embeddings| then |chunks| else |embeddings|
    ensures forall i :: 0 <= i < |Paste(chunks, embeddings)| ==>
      Paste(chunks, embeddings)[i] == ResultUnit(chunks[i].chunkid, chunks[i].seqNo, chunks[i].publid, embeddings[i])
  {
    if chunks != [] && embeddings != [] {
      PasteZips(chunks[1..], embeddings[1..]);
    }
  }

  function Somes(vectors: seq<Vector>): (r: seq<Option<Vector>>)
    ensures |r| == |vectors| && forall i :: 0 <= i < |vectors| ==> r[i] == Some(vectors[i])
  {
    seq(|vectors|, i requires 0 <= i < |vectors| => Some(vectors[i]))
  }

  function Nones(n: nat): (r: seq<Option<Vector>>)
    ensures |r| == n && forall i :: 0 <= i < n ==> r[i] == None
  {
    seq(n, _ => None)
  }

  // ---------------------------------------------------------------------
  // `produce_vectors`

  /** What one `generate_embeddings` call yields. */
  datatype GenReply = Generated(vectors: seq<Vector>) | OutOfMemory | OtherRuntimeError | OtherException

  /** The embedding model on the GPU: attempt number and texts to reply. */
  type Generator = (nat, seq<string>) -> GenReply

  function Texts(batch: seq<Chunk>): (texts: seq<string>)
    ensures |texts| == |batch| && forall i :: 0 <= i < |batch| ==> texts[i] == batch[i].txt
  {
    seq(|batch|, i requires 0 <= i < |batch| => batch[i].txt)
  }

  /** One attempt over a list of slices: embeddings concatenated in slice
      order, or the first reply that was not a list of embeddings. */
  datatype Attempt = Embedded(vectors: seq<Vector>) | Interrupted(reply: GenReply)

  function RunAttempt(slices: seq<seq<Chunk>>, gen: Generator, attempt: nat): (r: Attempt)
    ensures r.Interrupted? ==> !r.reply.Generated?
  {
    if slices == [] then Embedded([])
    else match gen(attempt, Texts(slices[0]))
      case Generated(vs) => Prepend(vs, RunAttempt(slices[1..], gen, attempt))
      case other => Interrupted(other)
  }

  function Prepend(vs: seq<Vector>, a: Attempt): Attempt {
    match a
    case Embedded(rest) => Embedded(vs + rest)
    case Interrupted(r) => a
  }

  /** A completed attempt called the generator once per slice, on the texts of
      that slice in order, and its embeddings are the replies concatenated in
      slice order. */
  lemma {:induction false} AttemptConcatenates(slices: seq<seq<Chunk>>, gen: Generator, attempt: nat)
    requires RunAttempt(slices, gen, attempt).Embedded?
    ensures forall j :: 0 <= j < |slices| ==> gen(attempt, Texts(slices[j])).Generated?
    ensures RunAttempt(slices, gen, attempt).vectors ==
      Flatten(seq(|slices|, j requires 0 <= j < |slices| => gen(attempt, Texts(slices[j])).vectors))
  {
    if slices != [] {
      AttemptConcatenates(slices[1..], gen, attempt);
      forall j | 0 < j < |slices| ensures gen(attempt, Texts(slices[j])).Generated? {
        assert slices[j] == slices[1..][j - 1];
      }
      var all := seq(|slices|, j requires 0 <= j < |slices| => gen(attempt, Texts(slices[j])).vectors);
      var rest := seq(|slices[1..]|, j requires 0 <= j < |slices[1..]| => gen(attempt, Texts(slices[1..][j])).vectors);
      assert all[1..] == rest;
    }
  }

  /** An attempt completes exactly when the generator returned embeddings
      for every slice. */
  lemma {:induction false} AttemptSucceedsIffAllGenerated(slices: seq<seq<Chunk>>, gen: Generator, attempt: nat)
    ensures RunAttempt(slices, gen, attempt).Embedded? <==>
      forall j :: 0 <= j < |slices| ==> gen(attempt, Texts(slices[j])).Generated?
  {
    if slices != [] {
      AttemptSucceedsIffAllGenerated(slices[1..], gen, attempt);
      assert forall j :: 0 < j < |slices| ==> slices[j] == slices[1..][j - 1];
    }
  }

  /** How `produce_vectors` ends. */
  datatype ProduceError = BatchSizeExhausted | ZeroStep | Reraised(reply: GenReply)
  datatype Produced = Produced(vectors: seq<ResultUnit>, model: string) | ProduceFailed(error: ProduceError)

  /** `produce_vectors` from work size `w`: a zero size makes `range()` raise;
      a negative one gives no slices; otherwise embed the slices of size `w`.
      On out-of-memory retry from scratch with `w - 1`, raising once that is
      no longer positive; any other error is re-raised. `model` is the name
      the model wrapper resolves. */
  function Produce(chunks: seq<Chunk>, w: int, gen: Generator, attempt: nat, model: string): Produced
    decreases if w > 0 then w else 0
  {
    if w == 0 then ProduceFailed(ZeroStep)
    else if w < 0 then Produced(Paste(chunks, []), model)
    else match RunAttempt(Slices(chunks, w), gen, attempt)
      case Embedded(vs) => Produced(Paste(chunks, Somes(vs)), model)
      case Interrupted(OutOfMemory) =>
        if w - 1 <= 0 then ProduceFailed(BatchSizeExhausted) else Produce(chunks, w - 1, gen, attempt + 1, model)
      case Interrupted(other) => ProduceFailed(Reraised(other))
  }

  /** Attempt `k` of a run started at size `w`: size `w - k`, attempt number
      `attempt + k`. */
  function AttemptAt(chunks: seq<Chunk>, w: int, gen: Generator, attempt: nat, k: nat): Attempt
    requires w - k > 0
  {
    RunAttempt(Slices(chunks, w - k), gen, attempt + k)
  }

  /** The run gives up exactly when all `w` attempts, at sizes `w`, `w - 1`,
      ..., 1, ran out of memory: at most `w` attempts are made. */
  lemma {:induction false} ExhaustedIffAllOutOfMemory(chunks: seq<Chunk>, w: int, gen: Generator, attempt: nat, model: string)
    requires w >= 1
    ensures Produce(chunks, w, gen, attempt, model) == ProduceFailed(BatchSizeExhausted) <==>
      forall k: nat :: k < w ==> AttemptAt(chunks, w, gen, attempt, k) == Interrupted(OutOfMemory)
    decreases w
  {
    if w > 1 && AttemptAt(chunks, w, gen, attempt, 0) == Interrupted(OutOfMemory) {
      var w', a' := w - 1, attempt + 1;
      ExhaustedIffAllOutOfMemory(chunks, w', gen, a', model);
      forall k: nat | k < w' ensures AttemptAt(chunks, w', gen, a', k) == AttemptAt(chunks, w, gen, attempt, k + 1) {
      }
      if forall k: nat :: k < w' ==> AttemptAt(chunks, w', gen, a', k) == Interrupted(OutOfMemory) {
        forall k: nat | k < w ensures AttemptAt(chunks, w, gen, attempt, k) == Interrupted(OutOfMemory) {
          if k > 0 { assert AttemptAt(chunks, w', gen, a', k - 1) == AttemptAt(chunks, w, gen, attempt, k); }
        }
      }
    } else {
      assert AttemptAt(chunks, w, gen, attempt, 0) == RunAttempt(Slices(chunks, w), gen, attempt);
    }
  }

  /** Attempt `k` of a run from size `w` is the first one that did not run
      out of memory, it embedded every slice, and `vectors` pairs the chunks
      with its embeddings. */
  predicate SucceedsAt(chunks: seq<Chunk>, w: int, gen: Generator, attempt: nat, k: nat, vectors: seq<ResultUnit>) {
    && k < w
    && (forall j: nat :: j < k ==> AttemptAt(chunks, w, gen, attempt, j) == Interrupted(OutOfMemory))
    && AttemptAt(chunks, w, gen, attempt, k).Embedded?
    && vectors == Paste(chunks, Somes(AttemptAt(chunks, w, gen, attempt, k).vectors))
  }

  /** A successful run used only its last attempt: every earlier attempt ran
      out of memory, and the records pair the chunks with the embeddings of
      that last attempt alone, in slice order. */
  lemma {:induction false} ProducedFromLastAttempt(chunks: seq<Chunk>, w: int, gen: Generator, attempt: nat, model: string)
    requires w >= 1 && Produce(chunks, w, gen, attempt, model).Produced?
    ensures Produce(chunks, w, gen, attempt, model).model == model
    ensures exists k: nat :: SucceedsAt(chunks, w, gen, attempt, k, Produce(chunks, w, gen, attempt, model).vectors)
    decreases w
  {
    var p := Produce(chunks, w, gen, attempt, model);
    var first := AttemptAt(chunks, w, gen, attempt, 0);
    assert first == RunAttempt(Slices(chunks, w), gen, attempt);
    if first.Embedded? {
      assert SucceedsAt(chunks, w, gen, attempt, 0, p.vectors);
    } else {
      var w', a' := w - 1, attempt + 1;
      assert p == Produce(chunks, w', gen, a', model);
      ProducedFromLastAttempt(chunks, w', gen, a', model);
      var k: nat :| SucceedsAt(chunks, w', gen, a', k, p.vectors);
      AttemptAtShift(chunks, w, gen, attempt, k);
      forall j: nat | j < k + 1 ensures AttemptAt(chunks, w, gen, attempt, j) == Interrupted(OutOfMemory) {
        if j > 0 { AttemptAtShift(chunks, w, gen, attempt, j - 1); }
      }
      assert SucceedsAt(chunks, w, gen, attempt, k + 1, p.vectors);
    }
  }

  /** Attempt `k + 1` of a run from size `w` is attempt `k` of the run the
      first out-of-memory restarts from size `w - 1`. */
  lemma AttemptAtShift(chunks: seq<Chunk>, w: int, gen: Generator, attempt: nat, k: nat)
    requires w - 1 - k > 0
    ensures AttemptAt(chunks, w - 1, gen, attempt + 1, k) == AttemptAt(chunks, w, gen, attempt, k + 1)
  {
  }

  /** Attempt `k` of a run from size `w` is the first one that did not run
      out of memory, and it was interrupted by `r`. */
  predicate RaisesAt(chunks: seq<Chunk>, w: int, gen: Generator, attempt: nat, k: nat, r: GenReply) {
    && k < w
    && (forall j: nat :: j < k ==> AttemptAt(chunks, w, gen, attempt, j) == Interrupted(OutOfMemory))
    && AttemptAt(chunks, w, gen, attempt, k) == Interrupted(r)
  }

  /** A run that re-raises does so with the error of the first attempt that
      did not run out of memory; every earlier attempt did, and the error is
      neither a result nor out of memory. */
  lemma {:induction false} ReraisedIsTheGeneratorError(chunks: seq<Chunk>, w: int, gen: Generator, attempt: nat, model: string)
    requires w >= 1 && Produce(chunks, w, gen, attempt, model).ProduceFailed?
    requires Produce(chunks, w, gen, attempt, model).error.Reraised?
    ensures var r := Produce(chunks, w, gen, attempt, model).error.reply;
      r != OutOfMemory && !r.Generated?
      && exists k: nat :: RaisesAt(chunks, w, gen, attempt, k, r)
    decreases w
  {
    var r := Produce(chunks, w, gen, attempt, model).error.reply;
    if AttemptAt(chunks, w, gen, attempt, 0) == Interrupted(OutOfMemory) {
      var w', a' := w - 1, attempt + 1;
      ReraisedIsTheGeneratorError(chunks, w', gen, a', model);
      var k: nat :| RaisesAt(chunks, w', gen, a', k, r);
      AttemptAtShift(chunks, w, gen, attempt, k);
      forall j: nat | j < k + 1 ensures AttemptAt(chunks, w, gen, attempt, j) == Interrupted(OutOfMemory) {
        if j > 0 { AttemptAtShift(chunks, w, gen, attempt, j - 1); }
      }
      assert RaisesAt(chunks, w, gen, attempt, k + 1, r);
    } else {
      assert RaisesAt(chunks, w, gen, attempt, 0, r);
    }
  }

  /** The attempt from chunk index `i` on, stepping by `w`: the form of the
      `for i in range(0, len(chunks), w)` loop. */
  function EmbedFrom(chunks: seq<Chunk>, w: nat, i: nat, gen: Generator, attempt: nat): Attempt
    requires w > 0
    decreases |chunks| - i
  {
    if i >= |chunks| then Embedded([])
    else
      var batch := chunks[i .. if i + w <= |chunks| then i + w else |chunks|];
      match gen(attempt, Texts(batch))
      case Generated(vs) => Prepend(vs, EmbedFrom(chunks, w, i + w, gen, attempt))
      case other => Interrupted(other)
  }

  lemma {:induction false} EmbedFromIsSlices(chunks: seq<Chunk>, w: nat, i: nat, gen: Generator, attempt: nat)
    requires w > 0 && i <= |chunks|
    ensures EmbedFrom(chunks, w, i, gen, attempt) == RunAttempt(Slices(chunks[i..], w), gen, attempt)
    decreases |chunks| - i
  {
    var rest := chunks[i..];
    if rest != [] {
      if |rest| <= w {
        assert chunks[i .. |chunks|] == rest;
        assert Slices(rest, w) == [rest];
        assert Slices(rest, w)[1..] == [];
      } else {
        EmbedFromIsSlices(chunks, w, i + w, gen, attempt);
        assert chunks[i .. i + w] == rest[..w];
        assert rest[w..] == chunks[i + w..];
        assert Slices(rest, w)[1..] == Slices(rest[w..], w);
      }
    }
  }

  lemma PrependAppend(a: seq<Vector>, b: seq<Vector>, x: Attempt)
    ensures Prepend(a, Prepend(b, x)) == Prepend(a + b, x)
  {
    if x.Embedded? {
      assert a + (b + x.vectors) == (a + b) + x.vectors;
    }
  }

  /** The slice loop of `produce_vectors`: embed `chunks[i : i + w]` for
      `i = 0, w, 2w, ...`, collecting the embeddings, and stop at the first
      reply that is not a list of embeddings. */
  method EmbedSlices(chunks: seq<Chunk>, w: nat, gen: Generator, attempt: nat) returns (a: Attempt)
    requires w > 0
    ensures a == RunAttempt(Slices(chunks, w), gen, attempt)
  {
    var embeddings: seq<Vector> := [];
    var i: nat := 0;
    while i < |chunks|
      invariant EmbedFrom(chunks, w, 0, gen, attempt) == Prepend(embeddings, EmbedFrom(chunks, w, i, gen, attempt))
      decreases |chunks| - i
    {
      var batch := chunks[i .. if i + w <= |chunks| then i + w else |chunks|];
      var reply := gen(attempt, Texts(batch));
      if !reply.Generated? {
        a := Interrupted(reply);
        break;
      }
      PrependAppend(embeddings, reply.vectors, EmbedFrom(chunks, w, i + w, gen, attempt));
      embeddings := embeddings + reply.vectors;
      i := i + w;
    }
    if i >= |chunks| {
      a := Embedded(embeddings);
    }
    EmbedFromIsSlices(chunks, w, 0, gen, attempt);
    assert chunks[0..] == chunks;
  }

  /** `produce_vectors`: the retry loop around the slice loop. */
  method ProduceVectors(chunks: seq<Chunk>, batchSize: int, gen: Generator, model: string) returns (r: Produced)
    ensures r == Produce(chunks, batchSize, gen, 0, model)
  {
    var w := batchSize;
    var attempt: nat := 0;
    while true
      invariant Produce(chunks, w, gen, attempt, model) == Produce(chunks, batchSize, gen, 0, model)
      decreases if w > 0 then w else 0
    {
      if w == 0 {
        // `range(0, n, 0)` raises ValueError, re-raised by the handler
        return ProduceFailed(ZeroStep);
      }
      if w < 0 {
        // a negative step gives an empty range: no slice, no embedding
        return Produced(Paste(chunks, []), model);
      }
      var outcome := EmbedSlices(chunks, w, gen, attempt);
      match outcome {
        case Embedded(embeddings) =>
          return Produced(Paste(chunks, Somes(embeddings)), model);
        case Interrupted(reply) =>
          if reply != OutOfMemory {
            return ProduceFailed(Reraised(reply));
          }
      }
      w := w - 1;
      attempt := attempt + 1;
      if w <= 0 {
        return ProduceFailed(BatchSizeExhausted);
      }
    }
  }

  // ---------------------------------------------------------------------
  // `prepare_transfer_data` and `triger_embedding_task`

  /** `prepare_transfer_data`: the fields copied as given, and the serving
      node's address, or "ip error" when it is unknown or empty. */
  function TransferData(vectors: seq<ResultUnit>, taskid: int, statistics: Statistics, dim: Option<int>,
                        status: BatchStatus, ip: Option<string>): (p: Payload)
    ensures p.status == status && p.taskid == taskid && p.vectors == vectors
      && p.statistics == statistics && p.dim == dim
    ensures p.ipAddress != ""
    ensures Truthy(ip) ==> p.ipAddress == ip.value
    ensures !Truthy(ip) ==> p.ipAddress == "ip error"
  {
    Payload(status, taskid, vectors, statistics, dim, if Truthy(ip) then ip.value else "ip error")
  }

  /** The failure payload: every chunk with a null vector, status 'fail', no
      dimension. `model` is the name known when the failure happened. */
  function FailurePayload(chunks: seq<Chunk>, taskid: int, model: Option<string>, ip: Option<string>): Payload {
    TransferData(Paste(chunks, Nones(|chunks|)), taskid, Statistics(|chunks|, model, None), None, Failure, ip)
  }

  /** The payloads `triger_embedding_task` posts, in order. `produced` is the
      outcome of `produce_vectors`; `firstPostRaises` says whether posting the
      success payload raised (the failure payload is then posted too). A
      result with no record, or whose first record has no vector, fails on
      reading its dimension. */
  function TriggerPayloads(chunks: seq<Chunk>, requestedModel: Option<string>, taskid: int,
                           produced: Produced, firstPostRaises: bool, ip: Option<string>): (ps: seq<Payload>)
    ensures 1 <= |ps| <= 2
    ensures forall k :: 0 <= k < |ps| && ps[k].status == Success ==>
      && k == 0 && produced.Produced?
      && ps[k].vectors == produced.vectors && produced.vectors != [] && produced.vectors[0].vector.Some?
      && ps[k].dim == Some(|produced.vectors[0].vector.value|)
      && ps[k].statistics == Statistics(|produced.vectors|, Some(produced.model), ps[k].dim)
    ensures forall k :: 0 <= k < |ps| && ps[k].status == Failure ==>
      && k == |ps| - 1
      && |ps[k].vectors| == |chunks| && ps[k].dim == None
      && ps[k].statistics.Statistics? && ps[k].statistics.nodes == |chunks| && ps[k].statistics.dimension == None
      && ps[k].statistics.model == (if produced.Produced? then Some(produced.model) else requestedModel)
      && forall i :: 0 <= i < |chunks| ==>
           ps[k].vectors[i] == ResultUnit(chunks[i].chunkid, chunks[i].seqNo, chunks[i].publid, None)
    ensures ps[|ps| - 1].status == Failure <==>
      produced.ProduceFailed? || produced.vectors == [] || produced.vectors[0].vector.None? || firstPostRaises
  {
    PasteZips(chunks, Nones(|chunks|));
    match produced
    case ProduceFailed(_) => [FailurePayload(chunks, taskid, requestedModel, ip)]
    case Produced(vs, model) =>
      if vs == [] || vs[0].vector.None? then [FailurePayload(chunks, taskid, Some(model), ip)]
      else
        var dim := |vs[0].vector.value|;
        var success := TransferData(vs, taskid, Statistics(|vs|, Some(model), Some(dim)), Some(dim), Success, ip);
        if firstPostRaises then [success, FailurePayload(chunks, taskid, Some(model), ip)] else [success]
  }

  /** On the success path the node count is the number of records, which is
      the number of chunks when the model gave one vector per text. */
  lemma SuccessCountsEveryChunk(chunks: seq<Chunk>, w: int, gen: Generator, model: string, requestedModel: Option<string>,
                                taskid: int, firstPostRaises: bool, ip: Option<string>)
    requires w >= 1
    requires RunAttempt(Slices(chunks, w), gen, 0).Embedded?
    requires |RunAttempt(Slices(chunks, w), gen, 0).vectors| == |chunks| && chunks != []
    ensures var ps := TriggerPayloads(chunks, requestedModel, taskid, Produce(chunks, w, gen, 0, model), firstPostRaises, ip);
      ps[0].status == Success && ps[0].statistics.nodes == |chunks|
      && forall i :: 0 <= i < |chunks| ==> ps[0].vectors[i].chunkid == chunks[i].chunkid
  {
    var vs := RunAttempt(Slices(chunks, w), gen, 0).vectors;
    PasteZips(chunks, Somes(vs));
  }
}
