/** Frames of a video in chunks by time, and the most recent ones of them (streamopd/streaming/recent_window.py). */
module RecentWindow {
  import opened Outcomes
  import opened Sequences

  /** A chunk; its frames are positions in the decoded video. */
  datatype EvalChunk = EvalChunk(frames: seq<nat>, start: real, end: real, index: int)

  function Time(frameIndex: int, rawFps: real): real
    requires rawFps > 0.0
  {
    frameIndex as real / rawFps
  }

  /** The chunk that a frame falls into. */
  function ChunkIndex(frameIndex: int, rawFps: real, duration: real): int
    requires rawFps > 0.0 && duration > 0.0
  {
    (Time(frameIndex, rawFps) / duration).Floor
  }

  function ChunkIndices(indices: seq<int>, rawFps: real, duration: real): seq<int>
    requires rawFps > 0.0 && duration > 0.0
  {
    seq(|indices|, i requires 0 <= i < |indices| => ChunkIndex(indices[i], rawFps, duration))
  }

  /** The positions that have a given chunk index. */
  function Positions(ids: seq<int>, id: int): seq<nat> {
    if ids == [] then []
    else Positions(ids[..|ids| - 1], id) + if ids[|ids| - 1] == id then [|ids| - 1] else []
  }

  predicate Ascending(keys: seq<int>) {
    forall i, j :: 0 <= i < j < |keys| ==> keys[i] < keys[j]
  }

  predicate NonDecreasing(xs: seq<int>) {
    forall i, j :: 0 <= i < j < |xs| ==> xs[i] <= xs[j]
  }

  function Groups(ids: seq<int>, keys: seq<int>): seq<seq<nat>> {
    seq(|keys|, k requires 0 <= k < |keys| => Positions(ids, keys[k]))
  }

  function UpTo(n: nat): seq<nat> {
    seq(n, i requires 0 <= i < n => i)
  }

  lemma {:induction false} PositionsAre(ids: seq<int>, id: int, k: nat)
    requires k < |Positions(ids, id)|
    ensures Positions(ids, id)[k] < |ids| && ids[Positions(ids, id)[k]] == id
  {
    var n := |ids| - 1;
    if k < |Positions(ids[..n], id)| { PositionsAre(ids[..n], id, k); }
  }

  lemma {:induction false} PositionsAscend(ids: seq<int>, id: int, j: nat, k: nat)
    requires j < k < |Positions(ids, id)|
    ensures Positions(ids, id)[j] < Positions(ids, id)[k]
  {
    var n := |ids| - 1;
    if k < |Positions(ids[..n], id)| { PositionsAscend(ids[..n], id, j, k); } else { PositionsAre(ids[..n], id, j); }
  }

  lemma {:induction false} PositionIn(ids: seq<int>, i: nat)
    requires i < |ids|
    ensures i in Positions(ids, ids[i])
  {
    var n := |ids| - 1;
    if i < n { PositionIn(ids[..n], i); }
  }

  // ---------------------------------------------------------------- chunks in order

  /** Frames by chunk, and in a chunk by position. */
  ghost predicate ByChunk(ids: seq<int>, frames: seq<nat>) {
    (forall a :: 0 <= a < |frames| ==> frames[a] < |ids|) &&
    forall a, b :: 0 <= a < b < |frames| ==>
      ids[frames[a]] < ids[frames[b]] || (ids[frames[a]] == ids[frames[b]] && frames[a] < frames[b])
  }

  ghost predicate From(ids: seq<int>, frames: seq<nat>, least: int) {
    forall a :: 0 <= a < |frames| ==> frames[a] < |ids| && ids[frames[a]] >= least
  }

  lemma ByChunkAppend(ids: seq<int>, id: int, rest: seq<nat>)
    requires ByChunk(ids, rest) && From(ids, rest, id + 1)
    ensures ByChunk(ids, Positions(ids, id) + rest) && From(ids, Positions(ids, id) + rest, id)
  {
    var first := Positions(ids, id);
    forall a | 0 <= a < |first| ensures first[a] < |ids| && ids[first[a]] == id { PositionsAre(ids, id, a); }
    forall a, b | 0 <= a < b < |first| ensures first[a] < first[b] { PositionsAscend(ids, id, a, b); }
  }

  lemma {:induction false} GroupsByChunk(ids: seq<int>, keys: seq<int>, least: int)
    requires Ascending(keys) && forall k :: 0 <= k < |keys| ==> keys[k] >= least
    ensures ByChunk(ids, Flatten(Groups(ids, keys))) && From(ids, Flatten(Groups(ids, keys)), least)
    decreases |keys|
  {
    if keys != [] {
      assert Groups(ids, keys)[1..] == Groups(ids, keys[1..]);
      GroupsByChunk(ids, keys[1..], keys[0] + 1);
      ByChunkAppend(ids, keys[0], Flatten(Groups(ids, keys[1..])));
    }
  }

  /** The chunk indices that occur, in order. */
  ghost predicate KeysOf(ids: seq<int>, keys: seq<int>) {
    Ascending(keys) && forall id :: id in ids <==> id in keys
  }

  lemma KeysEmpty(ids: seq<int>, keys: seq<int>)
    requires KeysOf(ids, keys)
    ensures ids == [] <==> keys == []
  {
    if keys != [] { assert keys[0] in keys && keys[0] in ids; }
    if ids != [] {
      var id := ids[0];
      assert id in ids && id in keys;
    }
  }

  lemma KeysWithoutLast(ids: seq<int>, keys: seq<int>)
    requires ids != [] && NonDecreasing(ids) && KeysOf(ids, keys)
    ensures var n, m := |ids| - 1, |keys| - 1;
            m >= 0 && keys[m] == ids[n] && NonDecreasing(ids[..n]) && KeysOf(ids[..n], if ids[n] in ids[..n] then keys else keys[..m])
  {
    var n, m := |ids| - 1, |keys| - 1;
    assert ids[n] in ids && ids[n] in keys;
    assert keys[m] in keys && keys[m] in ids;
    assert keys[m] == ids[n];
    forall id ensures id in ids <==> id in ids[..n] || id == ids[n] {
      assert ids == ids[..n] + [ids[n]];
    }
    forall id ensures id in keys <==> id in keys[..m] || id == keys[m] {
      assert keys == keys[..m] + [keys[m]];
    }
    assert keys[m] !in keys[..m];
  }

  lemma {:induction false} FramesInOrder(ids: seq<int>, keys: seq<int>)
    requires NonDecreasing(ids) && KeysOf(ids, keys)
    ensures Flatten(Groups(ids, keys)) == UpTo(|ids|)
    decreases |ids|
  {
    if ids == [] {
      KeysEmpty(ids, keys);
      assert Groups(ids, keys) == [] && UpTo(|ids|) == [];
    } else {
      var n: nat, m := |ids| - 1, |keys| - 1;
      var front := ids[..n];
      KeysWithoutLast(ids, keys);
      var had := if ids[n] in front then keys else keys[..m];
      FramesInOrder(front, had);
      LastFrame(ids, keys, had);
      UpToNext(n);
    }
  }

  lemma UpToNext(n: nat)
    ensures UpTo(n + 1) == UpTo(n) + [n]
  {
  }

  /** The last frame belongs to the last chunk. */
  lemma LastFrame(ids: seq<int>, keys: seq<int>, had: seq<int>)
    requires ids != [] && keys != [] && Ascending(keys) && keys[|keys| - 1] == ids[|ids| - 1]
    requires had == keys || (had == keys[..|keys| - 1] && ids[|ids| - 1] !in ids[..|ids| - 1])
    ensures var n: nat := |ids| - 1; Flatten(Groups(ids, keys)) == Flatten(Groups(ids[..n], had)) + [n]
  {
    var n: nat, m: nat := |ids| - 1, |keys| - 1;
    var front := Groups(ids[..n], keys[..m]);
    forall k | 0 <= k < m ensures Positions(ids, keys[k]) == Positions(ids[..n], keys[k]) { assert keys[k] < keys[m]; }
    var last := Positions(ids[..n], ids[n]);
    assert Groups(ids, keys) == front + [last + [n]];
    FlattenAppend(front, [last + [n]]);
    FlattenOne(last + [n]);
    assert Flatten(Groups(ids, keys)) == (Flatten(front) + last) + [n];
    if had == keys {
      assert Groups(ids[..n], keys) == front + [last];
      FlattenAppend(front, [last]);
      FlattenOne(last);
    } else {
      NotPosition(ids[..n], ids[n]);
      assert Flatten(front) + last == Flatten(front);
    }
  }

  lemma {:induction false} NotPosition(ids: seq<int>, id: int)
    requires id !in ids
    ensures Positions(ids, id) == []
  {
    if ids != [] { NotPosition(ids[..|ids| - 1], id); }
  }

  /** The chunks in order give back the decoded frames in order if and only if the chunk indices never go back. */
  lemma InOrderIff(ids: seq<int>, keys: seq<int>)
    requires KeysOf(ids, keys)
    ensures Flatten(Groups(ids, keys)) == UpTo(|ids|) <==> NonDecreasing(ids)
  {
    if NonDecreasing(ids) { FramesInOrder(ids, keys); }
    GroupsByChunk(ids, keys, if keys == [] then 0 else keys[0]);
    if Flatten(Groups(ids, keys)) == UpTo(|ids|) {
      forall i, j | 0 <= i < j < |ids| ensures ids[i] <= ids[j] {
        assert UpTo(|ids|)[i] == i && UpTo(|ids|)[j] == j;
      }
    }
  }

  /** With frame indices that go back the chunks do not give the frames back in order. */
  lemma GoingBack()
    ensures ChunkIndices([1, 0], 1.0, 1.0) == [1, 0] && KeysOf([1, 0], [0, 1])
    ensures Flatten(Groups([1, 0], [0, 1])) == [1, 0] && UpTo(2) == [0, 1]
  {
    assert ChunkIndex(1, 1.0, 1.0) == 1 && ChunkIndex(0, 1.0, 1.0) == 0;
    TwoBack();
    FlattenAppend([[1 as nat]], [[0 as nat]]);
    FlattenOne([1 as nat]);
    FlattenOne([0 as nat]);
  }

  lemma TwoBack()
    ensures Groups([1, 0], [0, 1]) == [[1]] + [[0]]
  {
    var ids := [1, 0];
    assert ids[..1] == [1] && |ids[..1][..0]| == 0;
    assert Positions(ids, 0) == [1] && Positions(ids, 1) == [0];
  }

  /** They never do when the frame indices never do. */
  lemma TimeOrder(indices: seq<int>, rawFps: real, duration: real)
    requires rawFps > 0.0 && duration > 0.0 && NonDecreasing(indices)
    ensures NonDecreasing(ChunkIndices(indices, rawFps, duration))
  {
    forall i, j | 0 <= i < j < |indices| ensures ChunkIndex(indices[i], rawFps, duration) <= ChunkIndex(indices[j], rawFps, duration) {
      QuotientGrows(indices[i] as real, indices[j] as real, rawFps);
      QuotientGrows(Time(indices[i], rawFps), Time(indices[j], rawFps), duration);
    }
  }

  lemma QuotientGrows(a: real, b: real, c: real)
    requires a <= b && c > 0.0
    ensures a / c <= b / c
  {
  }

  // ---------------------------------------------------------------- decoding

  /** The last frame shown counts for the time to the one before it, at least for one raw frame. */
  function FrameTime(indices: seq<int>, rawFps: real): real
    requires rawFps > 0.0
  {
    var n := |indices|;
    if n > 1 && (indices[n - 1] - indices[n - 2]) as real / rawFps > 1.0 / rawFps
    then (indices[n - 1] - indices[n - 2]) as real / rawFps
    else 1.0 / rawFps
  }

  /** The latest time of a frame, 0 without frames. */
  function MaxTimeOf(indices: seq<int>, rawFps: real): real
    requires rawFps > 0.0
  {
    var n := |indices|;
    if n == 0 then 0.0
    else if n == 1 || Time(indices[n - 1], rawFps) > MaxTimeOf(indices[..n - 1], rawFps) then Time(indices[n - 1], rawFps)
    else MaxTimeOf(indices[..n - 1], rawFps)
  }

  lemma {:induction false} MaxTimeIsMost(indices: seq<int>, rawFps: real, i: nat)
    requires rawFps > 0.0 && i < |indices|
    ensures Time(indices[i], rawFps) <= MaxTimeOf(indices, rawFps)
  {
    if i < |indices| - 1 { MaxTimeIsMost(indices[..|indices| - 1], rawFps, i); }
  }

  method MaxTime(indices: seq<int>, rawFps: real) returns (t: real)
    requires rawFps > 0.0
    ensures t == MaxTimeOf(indices, rawFps)
  {
    if indices == [] { return 0.0; }
    t := Time(indices[0], rawFps);
    for i := 1 to |indices|
      invariant t == MaxTimeOf(indices[..i], rawFps)
    {
      assert indices[..i + 1][..i] == indices[..i];
      if Time(indices[i], rawFps) > t { t := Time(indices[i], rawFps); }
    }
    assert indices[..|indices|] == indices;
  }

  /** max_valid_end: where the last frame ends. */
  function LastEnd(indices: seq<int>, rawFps: real): real
    requires rawFps > 0.0
  {
    MaxTimeOf(indices, rawFps) + FrameTime(indices, rawFps)
  }

  /** sorted() on the keys of a dictionary. */
  method Sorted<T>(d: map<int, T>) returns (keys: seq<int>)
    ensures Ascending(keys) && forall id :: id in d <==> id in keys
  {
    keys := [];
    var todo := d.Keys;
    while todo != {}
      invariant todo <= d.Keys && Ascending(keys)
      invariant forall id :: id in d <==> id in todo || id in keys
      invariant forall k, id :: 0 <= k < |keys| && id in todo ==> keys[k] < id
      decreases |todo|
    {
      var least := Least(todo);
      keys := keys + [least];
      todo := todo - {least};
    }
  }

  method Pick<T>(s: set<T>) returns (x: T)
    requires s != {}
    ensures x in s
  {
    x :| x in s;
  }

  method Least(s: set<int>) returns (least: int)
    requires s != {}
    ensures least in s && forall id :: id in s ==> least <= id
  {
    least := Pick(s);
    var todo := s - {least};
    while todo != {}
      invariant todo <= s && least in s && forall id :: id in s ==> id in todo || least <= id
      decreases |todo|
    {
      var id := Pick(todo);
      todo := todo - {id};
      if id < least { least := id; }
    }
  }

  ghost predicate Bucketed(ids: seq<int>, buckets: map<int, seq<nat>>) {
    (forall i :: 0 <= i < |ids| ==> ids[i] in buckets) && forall id :: id in buckets ==> id in ids && buckets[id] == Positions(ids, id)
  }

  lemma BucketedNext(ids: seq<int>, next: seq<int>, id: int, n: nat, buckets: map<int, seq<nat>>)
    requires Bucketed(ids, buckets) && next == ids + [id] && n == |ids|
    ensures Bucketed(next, buckets[id := (if id in buckets then buckets[id] else []) + [n]])
  {
    var buckets' := buckets[id := (if id in buckets then buckets[id] else []) + [n]];
    assert next[..n] == ids;
    if id !in buckets { NotPosition(ids, id); }
    forall k | k in buckets' ensures k in next && buckets'[k] == Positions(next, k) {
      assert k == id || (k in buckets && k in ids);
      if k == id { assert next[n] == id; }
    }
    forall i | 0 <= i < |next| ensures next[i] in buckets' {
      if i < n { assert next[i] == ids[i]; }
    }
  }

  method Buckets(ids: seq<int>) returns (buckets: map<int, seq<nat>>)
    ensures Bucketed(ids, buckets)
  {
    buckets := map[];
    for i := 0 to |ids|
      invariant Bucketed(ids[..i], buckets)
    {
      var id := ids[i];
      BucketedNext(ids[..i], ids[..i + 1], id, i, buckets);
      buckets := buckets[id := (if id in buckets then buckets[id] else []) + [i]];
    }
    assert ids[..|ids|] == ids;
  }

  /** When a chunk starts, which is when the one before it ends. */
  function StartOf(id: int, duration: real): real {
    id as real * duration
  }

  function ChunkOf(ids: seq<int>, id: int, duration: real, lastEnd: real): EvalChunk {
    var end := StartOf(id + 1, duration);
    EvalChunk(Positions(ids, id), StartOf(id, duration), if end <= lastEnd then end else lastEnd, id)
  }

  function Indices(chunks: seq<EvalChunk>): seq<int> {
    seq(|chunks|, c requires 0 <= c < |chunks| => chunks[c].index)
  }

  /** The raw frames for which the latest frame is shown. */
  function Shown(indices: seq<int>): int {
    var n := |indices|;
    if n > 1 && indices[n - 1] - indices[n - 2] > 1 then indices[n - 1] - indices[n - 2] else 1
  }

  ghost predicate EndsRight(indices: seq<int>, rawFps: real, duration: real, chunk: EvalChunk, m: nat)
    requires rawFps > 0.0 && m < |indices|
  {
    var stop, end := (indices[m] + Shown(indices)) as real / rawFps, (chunk.index + 1) as real * duration;
    chunk.end == if end <= stop then end else stop
  }

  predicate IsLatest(indices: seq<int>, m: nat) {
    m < |indices| && forall i :: 0 <= i < |indices| ==> indices[i] <= indices[m]
  }

  /** There is such a frame, and it falls into the time of the chunk. */
  predicate IsInTime(indices: seq<int>, rawFps: real, duration: real, id: int, i: nat)
    requires rawFps > 0.0
  {
    i < |indices| && id as real * duration <= indices[i] as real / rawFps < (id + 1) as real * duration
  }

  /** The positions, in order, of all frames in the time of a chunk, at least one. */
  ghost predicate RightFrames(indices: seq<int>, rawFps: real, duration: real, id: int, frames: seq<nat>)
    requires rawFps > 0.0
  {
    frames != [] && (forall a, b :: 0 <= a < b < |frames| ==> frames[a] < frames[b]) &&
    forall i: nat :: i in frames <==> IsInTime(indices, rawFps, duration, id, i)
  }

  /** A chunk starts with its time, and ends with it or when the latest frame has been shown, whichever comes first. */
  ghost predicate RightChunk(indices: seq<int>, rawFps: real, duration: real, chunk: EvalChunk)
    requires rawFps > 0.0
  {
    RightFrames(indices, rawFps, duration, chunk.index, chunk.frames) &&
    chunk.start == chunk.index as real * duration &&
    forall m: nat :: IsLatest(indices, m) ==> EndsRight(indices, rawFps, duration, chunk, m)
  }

  /** The chunks of a video, in order of time, each right, and with every frame in one of them. */
  ghost predicate Decoded(indices: seq<int>, rawFps: real, duration: real, chunks: seq<EvalChunk>)
    requires rawFps > 0.0
  {
    (forall k :: 0 <= k < |chunks| ==> RightChunk(indices, rawFps, duration, chunks[k])) &&
    (forall j, k :: 0 <= j < k < |chunks| ==> chunks[j].index < chunks[k].index) &&
    forall i: nat :: i < |indices| ==> Somewhere(chunks, i)
  }

  ghost predicate Somewhere(chunks: seq<EvalChunk>, i: nat) {
    exists k :: 0 <= k < |chunks| && i in chunks[k].frames
  }

  /** decode_video_to_chunks_qwen, on the frame indices that the decoder gave. */
  method DecodeToChunks(indices: seq<int>, rawFps: real, duration: real) returns (chunks: seq<EvalChunk>)
    requires rawFps > 0.0 && duration > 0.0
    ensures KeysOf(ChunkIndices(indices, rawFps, duration), Indices(chunks))
    ensures forall k :: 0 <= k < |chunks| ==>
      chunks[k] == ChunkOf(ChunkIndices(indices, rawFps, duration), chunks[k].index, duration, LastEnd(indices, rawFps))
    ensures Decoded(indices, rawFps, duration, chunks)
  {
    var maxTime := MaxTime(indices, rawFps);
    var maxValidEnd := maxTime + FrameTime(indices, rawFps);
    var ids := ChunkIndices(indices, rawFps, duration);
    var buckets := Buckets(ids);
    var keys := Sorted(buckets);
    chunks := [];
    for k := 0 to |keys|
      invariant |chunks| == k && forall j :: 0 <= j < k ==> chunks[j] == ChunkOf(ids, keys[j], duration, maxValidEnd)
    {
      var id := keys[k];
      var end := StartOf(id + 1, duration);
      chunks := chunks + [EvalChunk(buckets[id], StartOf(id, duration), if end <= maxValidEnd then end else maxValidEnd, id)];
    }
    assert Indices(chunks) == keys;
    AreDecoded(indices, rawFps, duration, chunks);
  }

  /** Every frame is in the chunk of its index and in no other. */
  lemma FrameInItsChunk(ids: seq<int>, i: nat, id: int)
    requires i < |ids|
    ensures i in Positions(ids, id) <==> ids[i] == id
  {
    PositionIn(ids, i);
    if i in Positions(ids, id) {
      var p :| 0 <= p < |Positions(ids, id)| && Positions(ids, id)[p] == i;
      PositionsAre(ids, id, p);
    }
  }

  /** And its time lies between the start and the end of that chunk. */
  lemma TimeInItsChunk(indices: seq<int>, rawFps: real, duration: real, i: nat, id: int)
    requires rawFps > 0.0 && duration > 0.0 && i < |indices|
    requires i in ChunkOf(ChunkIndices(indices, rawFps, duration), id, duration, LastEnd(indices, rawFps)).frames
    ensures var chunk := ChunkOf(ChunkIndices(indices, rawFps, duration), id, duration, LastEnd(indices, rawFps));
            chunk.start == id as real * duration && chunk.start <= indices[i] as real / rawFps < chunk.end
  {
    FrameInItsChunk(ChunkIndices(indices, rawFps, duration), i, id);
    FloorBounds(Time(indices[i], rawFps), duration, id);
    MaxTimeIsMost(indices, rawFps, i);
    Positive(1.0, rawFps);
  }

  lemma FloorBounds(t: real, duration: real, id: int)
    requires duration > 0.0 && id == (t / duration).Floor
    ensures StartOf(id, duration) <= t < StartOf(id + 1, duration)
  {
    Between(t, t / duration, id as real, (id + 1) as real, duration);
  }

  lemma Between(t: real, q: real, low: real, high: real, duration: real)
    requires q * duration == t && duration > 0.0 && low <= q < high
    ensures low * duration <= t < high * duration
  {
    Larger(low, q, duration);
    StrictlyLarger(q, high, duration);
  }

  lemma StrictlyLarger(a: real, b: real, c: real)
    requires a < b && c > 0.0
    ensures a * c < b * c
  {
    assert (b - a) * c > 0.0 by { Product(b - a, c); }
    assert (b - a) * c == b * c - a * c;
  }

  lemma Larger(a: real, b: real, c: real)
    requires a <= b && c > 0.0
    ensures a * c <= b * c
  {
  }

  lemma Product(a: real, b: real)
    requires a > 0.0 && b > 0.0
    ensures a * b > 0.0
  {
  }

  lemma Positive(a: real, b: real)
    requires a > 0.0 && b > 0.0
    ensures a / b > 0.0
  {
  }

  lemma AreDecoded(indices: seq<int>, rawFps: real, duration: real, chunks: seq<EvalChunk>)
    requires rawFps > 0.0 && duration > 0.0 && KeysOf(ChunkIndices(indices, rawFps, duration), Indices(chunks))
    requires forall k :: 0 <= k < |chunks| ==>
      chunks[k] == ChunkOf(ChunkIndices(indices, rawFps, duration), chunks[k].index, duration, LastEnd(indices, rawFps))
    ensures Decoded(indices, rawFps, duration, chunks)
  {
    var ids, keys := ChunkIndices(indices, rawFps, duration), Indices(chunks);
    forall k | 0 <= k < |chunks| ensures RightChunk(indices, rawFps, duration, chunks[k]) {
      assert keys[k] in keys && keys[k] in ids;
      ChunkIsRight(indices, rawFps, duration, keys[k]);
    }
    forall j, k | 0 <= j < k < |chunks| ensures chunks[j].index < chunks[k].index { assert keys[j] < keys[k]; }
    forall i: nat | i < |indices| ensures Somewhere(chunks, i) { InSomeChunk(ids, chunks, i); }
  }

  lemma ChunkWith(ids: seq<int>, chunks: seq<EvalChunk>, i: nat) returns (k: nat)
    requires KeysOf(ids, Indices(chunks)) && i < |ids|
    ensures k < |chunks| && chunks[k].index == ids[i]
  {
    var keys, id := Indices(chunks), ids[i];
    assert id in ids && id in keys;
    k :| k < |keys| && keys[k] == id;
  }

  lemma InSomeChunk(ids: seq<int>, chunks: seq<EvalChunk>, i: nat)
    requires KeysOf(ids, Indices(chunks)) && i < |ids|
    requires forall k :: 0 <= k < |chunks| ==> chunks[k].frames == Positions(ids, chunks[k].index)
    ensures Somewhere(chunks, i)
  {
    var k := ChunkWith(ids, chunks, i);
    PositionIn(ids, i);
    assert i in chunks[k].frames;
  }

  lemma ChunkIsRight(indices: seq<int>, rawFps: real, duration: real, id: int)
    requires rawFps > 0.0 && duration > 0.0 && id in ChunkIndices(indices, rawFps, duration)
    ensures RightChunk(indices, rawFps, duration, ChunkOf(ChunkIndices(indices, rawFps, duration), id, duration, LastEnd(indices, rawFps)))
  {
    var chunk := ChunkOf(ChunkIndices(indices, rawFps, duration), id, duration, LastEnd(indices, rawFps));
    PositionsRight(indices, rawFps, duration, id);
    forall m: nat | IsLatest(indices, m) ensures EndsRight(indices, rawFps, duration, chunk, m) {
      EndIsRight(indices, rawFps, duration, chunk, m);
    }
  }

  lemma EndIsRight(indices: seq<int>, rawFps: real, duration: real, chunk: EvalChunk, m: nat)
    requires rawFps > 0.0 && IsLatest(indices, m)
    requires var end, last := StartOf(chunk.index + 1, duration), LastEnd(indices, rawFps);
             chunk.end == if end <= last then end else last
    ensures EndsRight(indices, rawFps, duration, chunk, m)
  {
    LastEndIs(indices, rawFps, m);
  }

  lemma PositionsRight(indices: seq<int>, rawFps: real, duration: real, id: int)
    requires rawFps > 0.0 && duration > 0.0 && id in ChunkIndices(indices, rawFps, duration)
    ensures RightFrames(indices, rawFps, duration, id, Positions(ChunkIndices(indices, rawFps, duration), id))
  {
    var ids := ChunkIndices(indices, rawFps, duration);
    var frames := Positions(ids, id);
    var i :| 0 <= i < |ids| && ids[i] == id;
    PositionIn(ids, i);
    forall a, b | 0 <= a < b < |frames| ensures frames[a] < frames[b] { PositionsAscend(ids, id, a, b); }
    forall i: nat ensures i in frames <==> IsInTime(indices, rawFps, duration, id, i) {
      InChunkOfTime(indices, rawFps, duration, id, i);
    }
  }

  lemma InChunkOfTime(indices: seq<int>, rawFps: real, duration: real, id: int, i: nat)
    requires rawFps > 0.0 && duration > 0.0
    ensures i in Positions(ChunkIndices(indices, rawFps, duration), id) <==> IsInTime(indices, rawFps, duration, id, i)
  {
    var ids := ChunkIndices(indices, rawFps, duration);
    if i in Positions(ids, id) {
      var p :| 0 <= p < |Positions(ids, id)| && Positions(ids, id)[p] == i;
      PositionsAre(ids, id, p);
    }
    if i < |indices| {
      FrameInItsChunk(ids, i, id);
      FloorIs(Time(indices[i], rawFps), duration, id);
    }
  }

  lemma FloorIs(t: real, duration: real, id: int)
    requires duration > 0.0
    ensures (t / duration).Floor == id <==> id as real * duration <= t < (id + 1) as real * duration
  {
    var floor := (t / duration).Floor;
    FloorBounds(t, duration, floor);
    if floor != id { Outside(t, duration, floor as real, (floor + 1) as real, id as real, (id + 1) as real); }
  }

  lemma Outside(t: real, duration: real, floor: real, ceiling: real, low: real, high: real)
    requires duration > 0.0 && floor * duration <= t < ceiling * duration && (ceiling <= low || high <= floor)
    ensures !(low * duration <= t < high * duration)
  {
    if ceiling <= low { Larger(ceiling, low, duration); } else { Larger(high, floor, duration); }
  }

  lemma LastEndIs(indices: seq<int>, rawFps: real, m: nat)
    requires rawFps > 0.0 && IsLatest(indices, m)
    ensures LastEnd(indices, rawFps) == (indices[m] + Shown(indices)) as real / rawFps
  {
    var n := |indices|;
    LatestTime(indices, rawFps, m);
    if n > 1 { Compare(indices[n - 1] - indices[n - 2], rawFps); }
    AddQuotients(indices[m] as real, Shown(indices) as real, rawFps);
  }

  lemma AddQuotients(a: real, b: real, c: real)
    requires c > 0.0
    ensures a / c + b / c == (a + b) / c
  {
  }

  lemma Compare(a: int, c: real)
    requires c > 0.0
    ensures a as real / c > 1.0 / c <==> a > 1
  {
    if a > 1 { QuotientSmaller(1.0, a as real, c); } else { QuotientGrows(a as real, 1.0, c); }
  }

  lemma QuotientSmaller(a: real, b: real, c: real)
    requires a < b && c > 0.0
    ensures a / c < b / c
  {
    Positive(b - a, c);
    AddQuotients(a, b - a, c);
  }

  lemma {:induction false} LatestTime(indices: seq<int>, rawFps: real, m: nat)
    requires rawFps > 0.0 && IsLatest(indices, m)
    ensures MaxTimeOf(indices, rawFps) == indices[m] as real / rawFps
  {
    MaxTimeIsMost(indices, rawFps, m);
    var i := MaxTimeAt(indices, rawFps);
    QuotientGrows(indices[i] as real, indices[m] as real, rawFps);
  }

  lemma {:induction false} MaxTimeAt(indices: seq<int>, rawFps: real) returns (i: nat)
    requires rawFps > 0.0 && indices != []
    ensures i < |indices| && MaxTimeOf(indices, rawFps) == Time(indices[i], rawFps)
  {
    var n := |indices| - 1;
    i := n;
    if n > 0 && Time(indices[n], rawFps) <= MaxTimeOf(indices[..n], rawFps) { i := MaxTimeAt(indices[..n], rawFps); }
  }

  // ---------------------------------------------------------------- the window

  /** chunks[-max(1, n):]; no chunks at all is an error. */
  function Recent(chunks: seq<EvalChunk>, n: int): Result<seq<EvalChunk>> {
    var size := if n > 1 then n else 1;
    if chunks == [] then Raise(ValueError)
    else Ok(if size <= |chunks| then chunks[|chunks| - size..] else chunks)
  }

  function FramesOf(chunks: seq<EvalChunk>): seq<seq<nat>> {
    seq(|chunks|, c requires 0 <= c < |chunks| => chunks[c].frames)
  }

  /** The window is the last max(1, n) chunks, all of them if there are fewer. */
  lemma RecentSize(chunks: seq<EvalChunk>, n: int)
    ensures Recent(chunks, n) == Raise(ValueError) <==> chunks == []
    ensures Recent(chunks, n).Ok? <==> chunks != []
    ensures Recent(chunks, n).Ok? ==>
      var window := Recent(chunks, n).value;
      (n <= 1 ==> |window| == 1) && (1 <= n <= |chunks| ==> |window| == n) && (n > |chunks| ==> window == chunks) &&
      |window| <= |chunks| && window == chunks[|chunks| - |window|..]
  {
  }

  /** Whatever order the frame indices are in: a frame is in the window exactly if fewer than max(1, n) chunks of the video
      are later than its own. */
  lemma RecentFrames(ids: seq<int>, chunks: seq<EvalChunk>, n: int, i: nat)
    requires KeysOf(ids, Indices(chunks)) && i < |ids|
    requires forall k :: 0 <= k < |chunks| ==> chunks[k].frames == Positions(ids, chunks[k].index)
    ensures Recent(chunks, n).Ok?
    ensures i in Flatten(FramesOf(Recent(chunks, n).value)) <==>
            |set other | other in ids && other > ids[i]| < (if n > 1 then n else 1)
  {
    var k := ChunkWith(ids, chunks, i);
    RecentSize(chunks, n);
    var window := Recent(chunks, n).value;
    InLast(ids, chunks, i, k, |window|);
    LaterKeys(ids, Indices(chunks), k);
    assert (set other | other in ids && other > ids[i]) == Later(ids, ids[i]);
  }

  lemma InLast(ids: seq<int>, chunks: seq<EvalChunk>, i: nat, k: nat, size: nat)
    requires KeysOf(ids, Indices(chunks)) && i < |ids| && k < |chunks| && chunks[k].index == ids[i] && size <= |chunks|
    requires forall c :: 0 <= c < |chunks| ==> chunks[c].frames == Positions(ids, chunks[c].index)
    ensures i in Flatten(FramesOf(chunks[|chunks| - size..])) <==> k >= |chunks| - size
  {
    var m := |chunks| - size;
    var frames := FramesOf(chunks[m..]);
    forall c: nat | c < |frames| ensures i in frames[c] <==> c == k - m { InWindow(ids, chunks, i, m, c, k); }
    OnlyIn(frames, i, k - m);
  }

  lemma OnlyIn<T>(ss: seq<seq<T>>, x: T, k: int)
    requires forall c :: 0 <= c < |ss| ==> (x in ss[c] <==> c == k)
    ensures x in Flatten(ss) <==> 0 <= k < |ss|
  {
    FlattenHas(ss, x);
    if 0 <= k < |ss| { assert x in ss[k]; }
  }

  lemma InWindow(ids: seq<int>, chunks: seq<EvalChunk>, i: nat, m: nat, c: nat, k: nat)
    requires KeysOf(ids, Indices(chunks)) && i < |ids| && m + c < |chunks| && k < |chunks| && chunks[k].index == ids[i]
    requires chunks[m + c].frames == Positions(ids, chunks[m + c].index)
    ensures i in FramesOf(chunks[m..])[c] <==> c == k - m
  {
    FrameInItsChunk(ids, i, chunks[m + c].index);
    assert Indices(chunks)[m + c] == chunks[m + c].index && Indices(chunks)[k] == ids[i];
  }

  /** The chunk indices that are larger than one of them. */
  function Later(ids: seq<int>, id: int): set<int> {
    set other | other in ids && other > id
  }

  lemma {:induction false} LaterKeys(ids: seq<int>, keys: seq<int>, k: nat)
    requires KeysOf(ids, keys) && k < |keys|
    ensures |Later(ids, keys[k])| == |keys| - 1 - k
    decreases |keys| - k
  {
    if k + 1 == |keys| {
      NoneLater(ids, keys, k);
    } else {
      LaterKeys(ids, keys, k + 1);
      OneMoreLater(ids, keys, k);
      assert keys[k + 1] !in Later(ids, keys[k + 1]);
    }
  }

  lemma NoneLater(ids: seq<int>, keys: seq<int>, k: nat)
    requires KeysOf(ids, keys) && k + 1 == |keys|
    ensures Later(ids, keys[k]) == {}
  {
    forall other | other in ids ensures other <= keys[k] {
      assert other in keys;
    }
  }

  lemma OneMoreLater(ids: seq<int>, keys: seq<int>, k: nat)
    requires KeysOf(ids, keys) && k + 1 < |keys|
    ensures Later(ids, keys[k]) == Later(ids, keys[k + 1]) + {keys[k + 1]}
  {
    assert keys[k + 1] in keys && keys[k + 1] in ids;
    forall other | other in Later(ids, keys[k]) ensures other in Later(ids, keys[k + 1]) + {keys[k + 1]} {
      assert other in keys;
    }
  }

  lemma {:induction false} FlattenHas<T>(ss: seq<seq<T>>, x: T)
    ensures x in Flatten(ss) <==> exists c :: 0 <= c < |ss| && x in ss[c]
  {
    if ss != [] {
      FlattenHas(ss[1..], x);
      if c :| 0 <= c < |ss[1..]| && x in ss[1..][c] { assert x in ss[c + 1]; }
      if c :| 0 <= c < |ss| && x in ss[c] && c > 0 { assert x in ss[1..][c - 1]; }
    }
  }

  /** For a video whose frame indices do not go back, the recent frames are the last frames of the video. */
  lemma RecentIsSuffix(indices: seq<int>, rawFps: real, duration: real, chunks: seq<EvalChunk>, n: int)
    requires rawFps > 0.0 && duration > 0.0 && NonDecreasing(indices)
    requires KeysOf(ChunkIndices(indices, rawFps, duration), Indices(chunks))
    requires forall k :: 0 <= k < |chunks| ==> chunks[k].frames == Positions(ChunkIndices(indices, rawFps, duration), chunks[k].index)
    ensures Recent(chunks, n).Ok? <==> indices != []
    ensures Recent(chunks, n).Ok? ==>
      var recent := Flatten(FramesOf(Recent(chunks, n).value));
      0 < |recent| <= |indices| && recent == UpTo(|indices|)[|indices| - |recent|..]
  {
    var ids, keys := ChunkIndices(indices, rawFps, duration), Indices(chunks);
    TimeOrder(indices, rawFps, duration);
    InOrderIff(ids, keys);
    assert FramesOf(chunks) == Groups(ids, keys);
    KeysEmpty(ids, keys);
    if chunks != [] {
      RecentSize(chunks, n);
      var recent := Recent(chunks, n).value;
      LastFrames(chunks, |chunks| - |recent|);
      NotEmpty(ids, keys, recent, chunks);
    }
  }

  lemma LastFrames(chunks: seq<EvalChunk>, m: nat)
    requires m <= |chunks|
    ensures var all, last := Flatten(FramesOf(chunks)), Flatten(FramesOf(chunks[m..]));
            |last| <= |all| && last == all[|all| - |last|..]
  {
    assert FramesOf(chunks) == FramesOf(chunks[..m]) + FramesOf(chunks[m..]);
    FlattenAppend(FramesOf(chunks[..m]), FramesOf(chunks[m..]));
  }

  lemma NotEmpty(ids: seq<int>, keys: seq<int>, recent: seq<EvalChunk>, chunks: seq<EvalChunk>)
    requires KeysOf(ids, keys) && |chunks| == |keys| && chunks != [] && recent != []
    requires |recent| <= |chunks| && recent == chunks[|chunks| - |recent|..]
    requires forall k :: 0 <= k < |keys| ==> chunks[k].frames == Positions(ids, keys[k])
    ensures |Flatten(FramesOf(recent))| > 0
  {
    var m := |chunks| - |recent|;
    assert keys[m] in keys && keys[m] in ids;
    var i :| 0 <= i < |ids| && ids[i] == keys[m];
    PositionIn(ids, i);
    assert FramesOf(recent)[0] == Positions(ids, keys[m]);
  }

  /** Fewer than max(1, n) chunks of the video are later than that of the frame. */
  ghost predicate IsRecent(ids: seq<int>, n: int, i: nat)
    requires i < |ids|
  {
    |set other | other in ids && other > ids[i]| < if n > 1 then n else 1
  }

  ghost predicate Latest(ids: seq<int>, n: int, frames: seq<nat>) {
    forall i: nat :: i < |ids| ==> (i in frames <==> IsRecent(ids, n, i))
  }

  ghost predicate HasFrame(ids: seq<int>, frames: seq<nat>, id: int) {
    exists i: nat :: i < |ids| && i in frames && ids[i] == id
  }

  /** The chunks that have a frame among these. */
  ghost predicate ChunksOf(ids: seq<int>, frames: seq<nat>, chunkIds: seq<int>) {
    forall id :: id in chunkIds <==> HasFrame(ids, frames, id)
  }

  /** The frames of the window, chunk by chunk, and the indices of its chunks. */
  datatype Window = Window(frames: seq<nat>, ids: seq<int>)

  /** query_recent_window, up to the question: an error for a video without frames; otherwise the frames of which fewer than
      max(1, n) chunks are later, by chunk and position, and the indices of their chunks in order. */
  method QueryRecentWindow(indices: seq<int>, rawFps: real, duration: real, n: int) returns (r: Result<Window>)
    requires rawFps > 0.0 && duration > 0.0
    ensures r == Raise(ValueError) <==> indices == []
    ensures r.Raise? ==> r.error == ValueError
    ensures r.Ok? ==>
      var ids := ChunkIndices(indices, rawFps, duration);
      ByChunk(ids, r.value.frames) && Ascending(r.value.ids) && Latest(ids, n, r.value.frames) && ChunksOf(ids, r.value.frames, r.value.ids)
  {
    var chunks := DecodeToChunks(indices, rawFps, duration);
    ghost var ids := ChunkIndices(indices, rawFps, duration);
    KeysEmpty(ids, Indices(chunks));
    if chunks == [] { return Raise(ValueError); }
    var recent := Recent(chunks, n).value;
    var frames: seq<nat> := [];
    for c := 0 to |recent|
      invariant frames == Flatten(FramesOf(recent[..c]))
    {
      assert FramesOf(recent[..c + 1]) == FramesOf(recent[..c]) + [recent[c].frames];
      FlattenSnoc(FramesOf(recent[..c]), recent[c].frames);
      frames := frames + recent[c].frames;
    }
    assert recent[..|recent|] == recent;
    r := Ok(Window(frames, Indices(recent)));
    WindowIs(ids, chunks, n);
  }

  lemma WindowIs(ids: seq<int>, chunks: seq<EvalChunk>, n: int)
    requires KeysOf(ids, Indices(chunks)) && chunks != []
    requires forall k :: 0 <= k < |chunks| ==> chunks[k].frames == Positions(ids, chunks[k].index)
    ensures var recent := Recent(chunks, n).value;
            var frames := Flatten(FramesOf(recent));
            ByChunk(ids, frames) && Ascending(Indices(recent)) && Latest(ids, n, frames) && ChunksOf(ids, frames, Indices(recent))
  {
    var recent := Recent(chunks, n).value;
    RecentSize(chunks, n);
    forall i: nat | i < |ids| ensures i in Flatten(FramesOf(recent)) <==> IsRecent(ids, n, i) { RecentFrames(ids, chunks, n, i); }
    AscendingWindow(chunks, recent);
    WindowOrder(ids, recent);
    WindowOccurs(ids, chunks, recent);
    forall id ensures id in Indices(recent) <==> HasFrame(ids, Flatten(FramesOf(recent)), id) { WindowIds(ids, recent, id); }
  }

  lemma WindowOrder(ids: seq<int>, recent: seq<EvalChunk>)
    requires Ascending(Indices(recent)) && forall k :: 0 <= k < |recent| ==> recent[0].index <= recent[k].index
    requires forall k :: 0 <= k < |recent| ==> recent[k].frames == Positions(ids, recent[k].index)
    ensures ByChunk(ids, Flatten(FramesOf(recent)))
  {
    assert FramesOf(recent) == Groups(ids, Indices(recent));
    GroupsByChunk(ids, Indices(recent), if recent == [] then 0 else recent[0].index);
  }

  lemma WindowIds(ids: seq<int>, recent: seq<EvalChunk>, id: int)
    requires forall k :: 0 <= k < |recent| ==> recent[k].frames == Positions(ids, recent[k].index) && recent[k].index in ids
    requires forall i: nat :: i in Flatten(FramesOf(recent)) ==> i < |ids|
    ensures id in Indices(recent) <==> HasFrame(ids, Flatten(FramesOf(recent)), id)
  {
    var frames := FramesOf(recent);
    if id in Indices(recent) {
      var k :| 0 <= k < |recent| && Indices(recent)[k] == id;
      var i: nat :| i < |ids| && ids[i] == recent[k].index;
      PositionIn(ids, i);
      FlattenHas(frames, i);
      assert i in frames[k];
    }
    if i :| i in Flatten(frames) && ids[i] == id {
      FlattenHas(frames, i);
      var c :| 0 <= c < |frames| && i in frames[c];
      FrameInItsChunk(ids, i, recent[c].index);
      assert Indices(recent)[c] == id;
    }
  }

  lemma WindowOccurs(ids: seq<int>, chunks: seq<EvalChunk>, recent: seq<EvalChunk>)
    requires KeysOf(ids, Indices(chunks)) && |recent| <= |chunks| && recent == chunks[|chunks| - |recent|..]
    ensures forall k :: 0 <= k < |recent| ==> recent[k].index in ids
  {
    var m := |chunks| - |recent|;
    forall k | 0 <= k < |recent| ensures recent[k].index in ids {
      assert Indices(chunks)[m + k] == recent[k].index;
    }
  }

  lemma AscendingWindow(chunks: seq<EvalChunk>, recent: seq<EvalChunk>)
    requires Ascending(Indices(chunks)) && 0 < |recent| <= |chunks| && recent == chunks[|chunks| - |recent|..]
    ensures Ascending(Indices(recent)) && forall k :: 0 <= k < |recent| ==> recent[0].index <= recent[k].index
  {
    var m := |chunks| - |recent|;
    forall j, k | 0 <= j < k < |recent| ensures recent[j].index < recent[k].index {
      assert Indices(chunks)[m + j] < Indices(chunks)[m + k];
    }
  }
}
