/** Values shared by both senders and by the serving side: statuses, the
    records that travel between the queue store, the senders, the GPU
    endpoint and the receiver, and the slicing used to cut lists into
    work batches. */
module Common {

  datatype Option<+T> = None | Some(value: T)

  /** Python truthiness of an optional string: `None` and `""` are false. */
  predicate Truthy(s: Option<string>) {
    s.Some? && s.value != ""
  }

  /** Values of the `status` column of `task` and of `embed_task_chunk`. */
  datatype Status = Open | Progress | Waiting | Done | Fail

  /** An embedding vector. Its components are opaque here: only its length
      and its position in a list matter. */
  type Vector = seq<real>

  /** A chunk whose text is not null, as fetched from `embed_chunk`
      (the tuple `(id, txt, publid, seq)`, or the dict with the keys
      `chunkid`, `publid`, `seq`, `txt`). */
  datatype Chunk = Chunk(chunkid: int, txt: string, publid: int, seqNo: int)

  /** One entry of a receiver payload's `vectors` list. */
  datatype ResultUnit = ResultUnit(chunkid: int, seqNo: int, publid: int, vector: Option<Vector>)

  /** The `status` of a whole receiver payload: 'success' or 'fail'. */
  datatype BatchStatus = Success | Failure

  /** The `statistics` of a receiver payload: `{}` from the async sender, or
      the node count, model name and dimension from the serving side (the
      timing and GPU fields are not modelled). */
  datatype Statistics = NoStatistics | Statistics(nodes: int, model: Option<string>, dimension: Option<int>)

  /** The JSON object posted to the receiver. */
  datatype Payload = Payload(status: BatchStatus, taskid: int, vectors: seq<ResultUnit>,
                             statistics: Statistics, dim: Option<int>, ipAddress: string)

  function Ids(batch: seq<Chunk>): (ids: seq<int>)
    ensures |ids| == |batch|
    ensures forall i :: 0 <= i < |batch| ==> ids[i] == batch[i].chunkid
  {
    if batch == [] then [] else [batch[0].chunkid] + Ids(batch[1..])
  }

  function Flatten<T>(ss: seq<seq<T>>): seq<T> {
    if ss == [] then [] else ss[0] + Flatten(ss[1..])
  }

  lemma {:induction false} FlattenAppend<T>(a: seq<seq<T>>, b: seq<seq<T>>)
    ensures Flatten(a + b) == Flatten(a) + Flatten(b)
  {
    if a == [] {
      assert a + b == b;
    } else {
      assert (a + b)[1..] == a[1..] + b;
      FlattenAppend(a[1..], b);
    }
  }

  /** `[s[i:i + w] for i in range(0, len(s), w)]` for a positive step `w`. */
  function Slices<T>(s: seq<T>, w: nat): seq<seq<T>>
    requires w > 0
    decreases |s|
  {
    if s == [] then []
    else if |s| <= w then [s]
    else [s[..w]] + Slices(s[w..], w)
  }

  /** The slices put back together are the list that was sliced. */
  lemma {:induction false} SlicesFlatten<T>(s: seq<T>, w: nat)
    requires w > 0
    ensures Flatten(Slices(s, w)) == s
  {
    if s == [] {
    } else if |s| <= w {
      assert Flatten([s]) == s + Flatten([s][1..]);
    } else {
      SlicesFlatten(s[w..], w);
      assert Slices(s, w)[1..] == Slices(s[w..], w);
      assert s == s[..w] + s[w..];
    }
  }

  lemma DivStep(m: nat, w: nat)
    requires w > 0
    ensures (m + w) / w == m / w + 1
  {
    var q, r := m / w, m % w;
    var q', r' := (m + w) / w, (m + w) % w;
    var k := q' - q - 1;
    assert k * w == q' * w - q * w - w;
    assert k * w == r - r';
  }

  lemma DivSmall(m: nat, w: nat)
    requires m < w
    ensures m / w == 0
  {
  }

  /** Adding `m` multiples of `w` adds `m` to the quotient. */
  lemma {:induction false} DivAddMultiple(x: nat, m: nat, w: nat)
    requires w > 0
    ensures (x + m * w) / w == x / w + m
  {
    if m > 0 {
      DivAddMultiple(x, m - 1, w);
      assert x + m * w == (x + (m - 1) * w) + w;
      DivStep(x + (m - 1) * w, w);
    }
  }

  /** Division by a positive number is monotone. */
  lemma {:induction false} DivMono(a: nat, b: nat, w: nat)
    requires w > 0 && a <= b
    ensures a / w <= b / w
    decreases a
  {
    if a >= w {
      DivMono(a - w, b - w, w);
      DivStep(a - w, w);
      DivStep(b - w, w);
    } else {
      DivSmall(a, w);
    }
  }

  /** There are `ceil(|s| / w)` slices. */
  lemma {:induction false} SlicesCount<T>(s: seq<T>, w: nat)
    requires w > 0
    ensures |Slices(s, w)| == (|s| + w - 1) / w
    decreases |s|
  {
    if s == [] {
      DivSmall(w - 1, w);
    } else {
      if |s| <= w {
        DivSmall(|s| - 1, w);
      } else {
        SlicesCount(s[w..], w);
        assert |s[w..]| + w - 1 == |s| - 1;
      }
      DivStep(|s| - 1, w);
    }
  }

  /** Every slice is non-empty and at most `w` long, and every slice but the
      last is exactly `w` long. */
  lemma {:induction false} SlicesLengths<T>(s: seq<T>, w: nat)
    requires w > 0
    ensures forall j :: 0 <= j < |Slices(s, w)| ==> 0 < |Slices(s, w)[j]| <= w
    ensures forall j :: 0 <= j < |Slices(s, w)| - 1 ==> |Slices(s, w)[j]| == w
    decreases |s|
  {
    if |s| > w {
      SlicesLengths(s[w..], w);
      var rest := Slices(s[w..], w);
      assert Slices(s, w) == [s[..w]] + rest;
      forall j | 0 < j < |Slices(s, w)| ensures Slices(s, w)[j] == rest[j - 1] { }
    }
  }

  /** Every slice is non-empty and at most `w` long, and every slice but the
      last is exactly `w` long; there are `ceil(|s| / w)` of them. */
  lemma {:induction false} SlicesShape<T>(s: seq<T>, w: nat)
    requires w > 0
    ensures |Slices(s, w)| == (|s| + w - 1) / w
    ensures forall j :: 0 <= j < |Slices(s, w)| ==> 0 < |Slices(s, w)[j]| <= w
    ensures forall j :: 0 <= j < |Slices(s, w)| - 1 ==> |Slices(s, w)[j]| == w
  {
    SlicesCount(s, w);
    SlicesLengths(s, w);
  }

  /** Slice `j` is the Python slice `s[j*w : j*w + w]`, cut at the end of `s`. */
  lemma {:induction false} SlicesAt<T>(s: seq<T>, w: nat, j: nat)
    requires w > 0 && j < |Slices(s, w)|
    ensures j * w < |s|
    ensures Slices(s, w)[j] == s[j * w .. if j * w + w <= |s| then j * w + w else |s|]
    decreases |s|
  {
    if |s| <= w {
    } else if j == 0 {
    } else {
      var rest := s[w..];
      SlicesAt(rest, w, j - 1);
      var k := (j - 1) * w;
      assert k + w == j * w;
      assert Slices(s, w)[j] == Slices(rest, w)[j - 1];
      var hi := if k + w <= |rest| then k + w else |rest|;
      assert rest[k .. hi] == s[k + w .. hi + w];
    }
  }
}
