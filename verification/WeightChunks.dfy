/** Splitting weights into byte chunks and merging the chunks again
    (verl/checkpoint_engine/base.py). */
module WeightChunks {
  import opened Arithmetic
  import opened Outcomes
  import opened Sequences

  newtype Byte = x: int | 0 <= x < 256

  datatype DType = DType(name: string, itemSize: nat)

  /** A weight with its content as flat bytes. */
  datatype Weight = Weight(name: string, shape: seq<nat>, dtype: DType, data: seq<Byte>)

  datatype TensorMeta = TensorMeta(
    name: string, shape: seq<nat>, dtype: DType,
    chunkOffset: nat, chunkSize: nat,
    offset: Option<nat>)  // where the chunk starts in its bucket, once it has one

  datatype Chunk = Chunk(meta: TensorMeta, data: seq<Byte>)

  function Bytes(shape: seq<nat>, dtype: DType): nat {
    Numel(shape) * dtype.itemSize
  }

  function NBytes(meta: TensorMeta): nat {
    Bytes(meta.shape, meta.dtype)
  }

  ghost predicate IsTensor(w: Weight) {
    w.dtype.itemSize > 0 && |w.data| == Bytes(w.shape, w.dtype)
  }

  ghost predicate AreTensors(ws: seq<Weight>) {
    forall i :: 0 <= i < |ws| ==> IsTensor(ws[i])
  }

  ghost predicate DistinctNames(ws: seq<Weight>) {
    forall i, j :: 0 <= i < j < |ws| ==> ws[i].name != ws[j].name
  }

  /** Weights that have at least one byte: an empty one yields no chunk. */
  function NonEmpty(ws: seq<Weight>): seq<Weight> {
    if ws == [] then []
    else (if ws[0].data == [] then [] else [ws[0]]) + NonEmpty(ws[1..])
  }

  lemma {:induction false} NonEmptyCons(ws: seq<Weight>)
    requires ws != []
    ensures NonEmpty(ws) == NonEmpty([ws[0]]) + NonEmpty(ws[1..])
  {
    assert [ws[0]][1..] == [];
  }

  // ---------------------------------------------------------------- splitting

  function Min(a: int, b: int): int {
    if a < b then a else b
  }

  function ChunkAt(w: Weight, bucketSize: nat, from: nat): Chunk
    requires from <= |w.data|
  {
    var size := Min(bucketSize, |w.data| - from);
    Chunk(TensorMeta(w.name, w.shape, w.dtype, from, size, None), w.data[from..from + size])
  }

  function SplitFrom(w: Weight, bucketSize: nat, from: nat): seq<Chunk>
    requires bucketSize > 0 && from <= |w.data|
    decreases |w.data| - from
  {
    if from == |w.data| then []
    else
      var c := ChunkAt(w, bucketSize, from);
      [c] + SplitFrom(w, bucketSize, from + |c.data|)
  }

  function SplitAll(ws: seq<Weight>, bucketSize: nat): seq<Chunk>
    requires bucketSize > 0
  {
    if ws == [] then [] else SplitFrom(ws[0], bucketSize, 0) + SplitAll(ws[1..], bucketSize)
  }

  lemma SplitNext(chunks: seq<Chunk>, w: Weight, bucketSize: nat, from: nat)
    requires bucketSize > 0 && from < |w.data|
    ensures var c := ChunkAt(w, bucketSize, from);
            chunks + SplitFrom(w, bucketSize, from) == (chunks + [c]) + SplitFrom(w, bucketSize, from + |c.data|)
  {
    var c := ChunkAt(w, bucketSize, from);
    var rest := SplitFrom(w, bucketSize, from + |c.data|);
    assert chunks + ([c] + rest) == (chunks + [c]) + rest;
  }

  lemma {:induction false} SplitAllSnoc(ws: seq<Weight>, w: Weight, bucketSize: nat)
    requires bucketSize > 0
    ensures SplitAll(ws + [w], bucketSize) == SplitAll(ws, bucketSize) + SplitFrom(w, bucketSize, 0)
  {
    if ws == [] {
      assert ws + [w] == [w];
    } else {
      assert (ws + [w])[1..] == ws[1..] + [w];
      SplitAllSnoc(ws[1..], w, bucketSize);
    }
  }

  /** The generator's two loops produce exactly the specified chunk stream. */
  method SplitWeightChunks(weights: seq<Weight>, bucketSize: nat) returns (chunks: seq<Chunk>)
    requires bucketSize > 0
    ensures chunks == SplitAll(weights, bucketSize)
  {
    chunks := [];
    for i := 0 to |weights|
      invariant chunks == SplitAll(weights[..i], bucketSize)
    {
      var weight := weights[i];
      var chunkOffset := 0;
      ghost var before := chunks;
      while chunkOffset < |weight.data|
        invariant chunkOffset <= |weight.data|
        invariant chunks + SplitFrom(weight, bucketSize, chunkOffset) == before + SplitFrom(weight, bucketSize, 0)
      {
        var c := ChunkAt(weight, bucketSize, chunkOffset);
        SplitNext(chunks, weight, bucketSize, chunkOffset);
        chunks := chunks + [c];
        chunkOffset := chunkOffset + c.meta.chunkSize;
      }
      assert weights[..i + 1] == weights[..i] + [weight];
      SplitAllSnoc(weights[..i], weight, bucketSize);
    }
    assert weights[..|weights|] == weights;
  }

  /** Chunks of one weight that precede another one of the same weight fill a whole bucket. */
  ghost predicate FullUnlessLast(cs: seq<Chunk>, bucketSize: nat) {
    forall i, j :: 0 <= i < j < |cs| && cs[i].meta.name == cs[j].meta.name ==> |cs[i].data| == bucketSize
  }

  ghost predicate Sized(cs: seq<Chunk>, bucketSize: nat) {
    forall i :: 0 <= i < |cs| ==> 0 < |cs[i].data| <= bucketSize && cs[i].meta.chunkSize == |cs[i].data|
  }

  ghost predicate NamedIn(cs: seq<Chunk>, ws: seq<Weight>) {
    forall i :: 0 <= i < |cs| ==> exists j :: 0 <= j < |ws| && ws[j].name == cs[i].meta.name
  }

  lemma {:induction false} SplitFromShape(w: Weight, bucketSize: nat, from: nat)
    requires bucketSize > 0 && from <= |w.data|
    ensures var cs := SplitFrom(w, bucketSize, from);
            Sized(cs, bucketSize) && FullUnlessLast(cs, bucketSize) &&
            forall i :: 0 <= i < |cs| ==> cs[i].meta.name == w.name
    decreases |w.data| - from
  {
    if from < |w.data| {
      SplitFromShape(w, bucketSize, from + |ChunkAt(w, bucketSize, from).data|);
    }
  }

  lemma {:induction false} SplitAllShape(ws: seq<Weight>, bucketSize: nat)
    requires bucketSize > 0 && DistinctNames(ws)
    ensures var cs := SplitAll(ws, bucketSize);
            Sized(cs, bucketSize) && FullUnlessLast(cs, bucketSize) && NamedIn(cs, ws)
  {
    if ws != [] {
      var a, b := SplitFrom(ws[0], bucketSize, 0), SplitAll(ws[1..], bucketSize);
      SplitFromShape(ws[0], bucketSize, 0);
      SplitAllShape(ws[1..], bucketSize);
      forall i | 0 <= i < |b|
        ensures b[i].meta.name != ws[0].name && exists j :: 0 <= j < |ws| && ws[j].name == b[i].meta.name
      {
        var j :| 0 <= j < |ws[1..]| && ws[1..][j].name == b[i].meta.name;
        assert ws[j + 1].name == b[i].meta.name;
      }
      forall i | 0 <= i < |a + b| ensures exists j :: 0 <= j < |ws| && ws[j].name == (a + b)[i].meta.name {
        if i < |a| {
          assert ws[0].name == (a + b)[i].meta.name;
        } else {
          assert (a + b)[i] == b[i - |a|];
        }
      }
    }
  }

  // ---------------------------------------------------------------- merging

  /** A weight larger than a bucket, as far as it has arrived: `data` is the written prefix of its buffer. */
  datatype Pending = Pending(name: string, shape: seq<nat>, dtype: DType, data: seq<Byte>)

  /** What the loop body does with one chunk: the weight it merged, if any, and the weight still being merged. */
  function MergeStep(pending: Option<Pending>, c: Chunk, bucketSize: nat): Result<(Option<Pending>, Option<Weight>)> {
    var m := c.meta;
    var nbytes := NBytes(m);
    if nbytes <= bucketSize then
      if pending.Some? then Raise(AssertionError)
      else if m.offset.Some? && m.dtype.itemSize != 0 && m.offset.value % m.dtype.itemSize != 0 then Raise(Misaligned)
      else if |c.data| != nbytes then Raise(ShapeMismatch)
      else Ok((None, Some(Weight(m.name, m.shape, m.dtype, c.data))))
    else if pending.None? && m.chunkOffset != 0 then Raise(AssertionError)
    else
      var p := if pending.None? then Pending(m.name, m.shape, m.dtype, []) else pending.value;
      if m.name != p.name || |p.data| != m.chunkOffset then Raise(AssertionError)
      else if |c.data| != m.chunkSize || m.chunkOffset + m.chunkSize > Bytes(p.shape, p.dtype) then Raise(ShapeMismatch)
      else
        var data := p.data + c.data;
        if m.chunkOffset + m.chunkSize == nbytes then Ok((None, Some(Weight(p.name, p.shape, p.dtype, data))))
        else Ok((Some(p.(data := data)), None))
  }

  function Listed(w: Option<Weight>): seq<Weight> {
    if w.Some? then [w.value] else []
  }

  /** What has been yielded, in front of what merging the rest of the stream yields. */
  function Yielded(out: seq<Weight>, rest: Result<seq<Weight>>): Result<seq<Weight>> {
    match rest
    case Raise(e) => Raise(e)
    case Ok(ws) => Ok(out + ws)
  }

  function MergeFrom(pending: Option<Pending>, cs: seq<Chunk>, bucketSize: nat): Result<seq<Weight>>
    decreases |cs|
  {
    if cs == [] then Ok([])
    else match MergeStep(pending, cs[0], bucketSize)
      case Raise(e) => Raise(e)
      case Ok((next, out)) => Yielded(Listed(out), MergeFrom(next, cs[1..], bucketSize))
  }

  function Merge(cs: seq<Chunk>, bucketSize: nat): Result<seq<Weight>> {
    MergeFrom(None, cs, bucketSize)
  }

  lemma {:induction false} YieldedAssoc(a: seq<Weight>, b: seq<Weight>, r: Result<seq<Weight>>)
    ensures Yielded(a, Yielded(b, r)) == Yielded(a + b, r) && Yielded([], r) == r
  {
    if r.Ok? {
      assert a + (b + r.value) == a + b + r.value && [] + r.value == r.value;
    }
  }

  /** The merge buffer: the header of the weight being merged and its byte array. */
  ghost predicate Holds(pending: Option<Pending>, meta: Option<TensorMeta>, buffer: array<Byte>, offset: nat)
    reads buffer
  {
    match meta
    case None => pending.None?
    case Some(m) =>
      buffer.Length == NBytes(m) && offset <= buffer.Length &&
      pending == Some(Pending(m.name, m.shape, m.dtype, buffer[..offset]))
  }

  /** The body of the generator's loop, for a weight larger than a bucket. */
  method MergeLargeChunk(c: Chunk, bucketSize: nat, meta0: Option<TensorMeta>, buffer0: array<Byte>, offset0: nat,
                         ghost pending: Option<Pending>)
    returns (error: Option<Error>, out: Option<Weight>, meta: Option<TensorMeta>, buffer: array<Byte>, offset: nat,
             ghost next: Option<Pending>)
    requires NBytes(c.meta) > bucketSize && Holds(pending, meta0, buffer0, offset0)
    modifies buffer0
    ensures buffer == buffer0 || fresh(buffer)
    ensures match error
            case Some(e) => MergeStep(pending, c, bucketSize) == Raise(e)
            case None => MergeStep(pending, c, bucketSize) == Ok((next, out)) && Holds(next, meta, buffer, offset)
  {
    var m := c.meta;
    error, out, meta, buffer, offset, next := None, None, meta0, buffer0, offset0, pending;
    if meta.None? {
      if m.chunkOffset != 0 { return Some(AssertionError), out, meta, buffer, offset, next; }
      meta := Some(m);
      buffer := new Byte[NBytes(m)];
      offset := 0;
    }
    ghost var p := if pending.None? then Pending(m.name, m.shape, m.dtype, []) else pending.value;
    assert p.data == buffer[..offset];
    if m.name != meta.value.name || offset != m.chunkOffset { return Some(AssertionError), out, meta, buffer, offset, next; }
    if |c.data| != m.chunkSize || m.chunkOffset + m.chunkSize > buffer.Length {
      return Some(ShapeMismatch), out, meta, buffer, offset, next;
    }
    forall k | 0 <= k < |c.data| { buffer[m.chunkOffset + k] := c.data[k]; }
    offset := offset + m.chunkSize;
    assert buffer[..offset] == p.data + c.data;
    next := Some(p.(data := p.data + c.data));
    if m.chunkOffset + m.chunkSize == NBytes(m) {
      out := Some(Weight(meta.value.name, meta.value.shape, meta.value.dtype, buffer[..offset]));
      meta, next := None, None;
    }
  }

  /** The generator with its merge buffer, a byte array written slice by slice. */
  method MergeWeightChunks(chunks: seq<Chunk>, bucketSize: nat) returns (r: Result<seq<Weight>>)
    ensures r == Merge(chunks, bucketSize)
  {
    var mergeMeta: Option<TensorMeta> := None;
    var mergeBuffer := new Byte[0];
    var mergeOffset := 0;
    var merged: seq<Weight> := [];
    ghost var pending: Option<Pending> := None;
    assert chunks[0..] == chunks;
    YieldedAssoc([], [], Merge(chunks, bucketSize));
    for i := 0 to |chunks|
      invariant fresh(mergeBuffer) && Holds(pending, mergeMeta, mergeBuffer, mergeOffset)
      invariant Yielded(merged, MergeFrom(pending, chunks[i..], bucketSize)) == Merge(chunks, bucketSize)
    {
      var c := chunks[i];
      ghost var here := pending;
      assert chunks[i..][0] == c && chunks[i..][1..] == chunks[i + 1..];
      var out: Option<Weight> := None;
      if NBytes(c.meta) <= bucketSize {
        if mergeMeta.Some? { return Raise(AssertionError); }
        if c.meta.offset.Some? && c.meta.dtype.itemSize != 0 && c.meta.offset.value % c.meta.dtype.itemSize != 0 {
          return Raise(Misaligned);
        }
        if |c.data| != NBytes(c.meta) { return Raise(ShapeMismatch); }
        out := Some(Weight(c.meta.name, c.meta.shape, c.meta.dtype, c.data));
      } else {
        var error;
        error, out, mergeMeta, mergeBuffer, mergeOffset, pending :=
          MergeLargeChunk(c, bucketSize, mergeMeta, mergeBuffer, mergeOffset, pending);
        if error.Some? { return Raise(error.value); }
      }
      assert MergeStep(here, c, bucketSize) == Ok((pending, out));
      YieldedAssoc(merged, Listed(out), MergeFrom(pending, chunks[i + 1..], bucketSize));
      merged := merged + Listed(out);
    }
    assert chunks[|chunks|..] == [] && merged + [] == merged;
    r := Ok(merged);
  }

  // ---------------------------------------------------------------- merging what was split

  /** The chunks as they come out of the buckets: chunk i starts at offs[i] in its bucket. */
  function Place(cs: seq<Chunk>, offs: seq<nat>): (r: seq<Chunk>)
    requires |cs| == |offs|
  {
    seq(|cs|, i requires 0 <= i < |cs| => Chunk(cs[i].meta.(offset := Some(offs[i])), cs[i].data))
  }

  /** Every weight that is not merged from several chunks starts at a multiple of its element size. */
  ghost predicate Aligned(cs: seq<Chunk>, offs: seq<nat>, bucketSize: nat)
    requires |cs| == |offs|
  {
    forall i :: 0 <= i < |cs| && NBytes(cs[i].meta) <= bucketSize && cs[i].meta.dtype.itemSize > 0
      ==> offs[i] % cs[i].meta.dtype.itemSize == 0
  }

  lemma {:induction false} PlaceSplit(a: seq<Chunk>, b: seq<Chunk>, offs: seq<nat>, bucketSize: nat)
    requires |offs| == |a| + |b|
    ensures Place(a + b, offs) == Place(a, offs[..|a|]) + Place(b, offs[|a|..])
    ensures Aligned(a + b, offs, bucketSize) <==> Aligned(a, offs[..|a|], bucketSize) && Aligned(b, offs[|a|..], bucketSize)
  {
    if Aligned(a + b, offs, bucketSize) {
      forall i | 0 <= i < |a| && NBytes(a[i].meta) <= bucketSize && a[i].meta.dtype.itemSize > 0
        ensures offs[..|a|][i] % a[i].meta.dtype.itemSize == 0
      {
        assert (a + b)[i] == a[i];
      }
      forall i | 0 <= i < |b| && NBytes(b[i].meta) <= bucketSize && b[i].meta.dtype.itemSize > 0
        ensures offs[|a|..][i] % b[i].meta.dtype.itemSize == 0
      {
        assert (a + b)[|a| + i] == b[i];
      }
    }
  }

  function Partial(w: Weight, upTo: nat): Option<Pending>
    requires upTo <= |w.data|
  {
    if upTo == 0 then None else Some(Pending(w.name, w.shape, w.dtype, w.data[..upTo]))
  }

  /** What the loop body does with the chunk at `from` of a weight too large for one bucket. */
  lemma {:induction false} LargeStep(w: Weight, bucketSize: nat, from: nat, off: nat)
    requires IsTensor(w) && 0 < bucketSize < |w.data| && from < |w.data|
    ensures var c := ChunkAt(w, bucketSize, from);
            var next := from + |c.data|;
            MergeStep(Partial(w, from), Chunk(c.meta.(offset := Some(off)), c.data), bucketSize)
              == if next == |w.data| then Ok((None, Some(w))) else Ok((Partial(w, next), None))
  {
    var c := ChunkAt(w, bucketSize, from);
    var next := from + |c.data|;
    assert w.data[..from] + c.data == w.data[..next];
    assert w.data[..|w.data|] == w.data && w.data[..0] == [];
  }

  lemma {:induction false} MergeCons(pending: Option<Pending>, c: Chunk, rest: seq<Chunk>, bucketSize: nat)
    ensures MergeFrom(pending, [c] + rest, bucketSize)
         == match MergeStep(pending, c, bucketSize)
            case Raise(e) => Raise(e)
            case Ok((next, out)) => Yielded(Listed(out), MergeFrom(next, rest, bucketSize))
  {
    assert ([c] + rest)[0] == c && ([c] + rest)[1..] == rest;
  }

  lemma {:induction false} PlaceCons(c: Chunk, cs: seq<Chunk>, offs: seq<nat>, rest: seq<Chunk>)
    requires |offs| == |cs| + 1
    ensures Place([c] + cs, offs) + rest == [Chunk(c.meta.(offset := Some(offs[0])), c.data)] + (Place(cs, offs[1..]) + rest)
  {
  }

  /** The tail of a weight too large for one bucket completes the buffer that holds its head. */
  lemma {:induction false} MergeLargeTail(w: Weight, bucketSize: nat, from: nat, offs: seq<nat>, rest: seq<Chunk>)
    requires IsTensor(w) && 0 < bucketSize < |w.data| && from < |w.data|
    requires |offs| == |SplitFrom(w, bucketSize, from)|
    ensures MergeFrom(Partial(w, from), Place(SplitFrom(w, bucketSize, from), offs) + rest, bucketSize)
              == Yielded([w], MergeFrom(None, rest, bucketSize))
    decreases |w.data| - from
  {
    var c := ChunkAt(w, bucketSize, from);
    var next := from + |c.data|;
    var cs := SplitFrom(w, bucketSize, next);
    var tail := Place(cs, offs[1..]) + rest;
    PlaceCons(c, cs, offs, rest);
    LargeStep(w, bucketSize, from, offs[0]);
    MergeCons(Partial(w, from), Chunk(c.meta.(offset := Some(offs[0])), c.data), tail, bucketSize);
    if next == |w.data| {
      assert tail == rest;
    } else {
      MergeLargeTail(w, bucketSize, next, offs[1..], rest);
      YieldedAssoc([], [], Yielded([w], MergeFrom(None, rest, bucketSize)));
    }
  }

  lemma {:induction false} AlignedLarge(w: Weight, bucketSize: nat, from: nat, offs: seq<nat>)
    requires IsTensor(w) && 0 < bucketSize < |w.data| && from <= |w.data|
    requires |offs| == |SplitFrom(w, bucketSize, from)|
    ensures Aligned(SplitFrom(w, bucketSize, from), offs, bucketSize)
    decreases |w.data| - from
  {
    if from < |w.data| {
      var c := ChunkAt(w, bucketSize, from);
      AlignedLarge(w, bucketSize, from + |c.data|, offs[1..]);
    }
  }

  /** Splitting, placing in buckets and merging: the original weights come back in order, except the
      empty ones, exactly when every weight that fits in one bucket was placed at an aligned offset. */
  lemma {:induction false} MergeAfterSplit(ws: seq<Weight>, bucketSize: nat, offs: seq<nat>)
    requires bucketSize > 0 && AreTensors(ws) && |offs| == |SplitAll(ws, bucketSize)|
    ensures Merge(Place(SplitAll(ws, bucketSize), offs), bucketSize)
         == if Aligned(SplitAll(ws, bucketSize), offs, bucketSize) then Ok(NonEmpty(ws)) else Raise(Misaligned)
  {
    if ws != [] {
      var w := ws[0];
      var a, b := SplitFrom(w, bucketSize, 0), SplitAll(ws[1..], bucketSize);
      PlaceSplit(a, b, offs, bucketSize);
      MergeAfterSplit(ws[1..], bucketSize, offs[|a|..]);
      MergeFirst(w, bucketSize, offs[..|a|], Place(b, offs[|a|..]));
      YieldedAssoc(NonEmpty([w]), [], Ok(NonEmpty(ws[1..])));
      NonEmptyCons(ws);
    }
  }

  lemma {:induction false} MergeFirst(w: Weight, bucketSize: nat, offs: seq<nat>, rest: seq<Chunk>)
    requires bucketSize > 0 && IsTensor(w) && |offs| == |SplitFrom(w, bucketSize, 0)|
    ensures var cs := SplitFrom(w, bucketSize, 0);
            Merge(Place(cs, offs) + rest, bucketSize)
              == if Aligned(cs, offs, bucketSize) then Yielded(NonEmpty([w]), Merge(rest, bucketSize)) else Raise(Misaligned)
  {
    var cs := SplitFrom(w, bucketSize, 0);
    if w.data == [] {
      YieldedAssoc([], [], Merge(rest, bucketSize));
      assert Place(cs, offs) + rest == rest;
      return;
    }
    assert NonEmpty([w]) == [w];
    if |w.data| <= bucketSize {
      MergeSmall(w, bucketSize, offs, rest);
    } else {
      AlignedLarge(w, bucketSize, 0, offs);
      MergeLargeTail(w, bucketSize, 0, offs, rest);
    }
  }

  lemma {:induction false} MergeSmall(w: Weight, bucketSize: nat, offs: seq<nat>, rest: seq<Chunk>)
    requires IsTensor(w) && 0 < |w.data| <= bucketSize && |offs| == |SplitFrom(w, bucketSize, 0)|
    ensures var cs := SplitFrom(w, bucketSize, 0);
            Merge(Place(cs, offs) + rest, bucketSize)
              == if Aligned(cs, offs, bucketSize) then Yielded([w], Merge(rest, bucketSize)) else Raise(Misaligned)
  {
    var cs := SplitFrom(w, bucketSize, 0);
    var c := ChunkAt(w, bucketSize, 0);
    assert c.data == w.data;
    assert cs == [c] + [];
    var placed := Chunk(c.meta.(offset := Some(offs[0])), c.data);
    PlaceCons(c, [], offs, rest);
    assert Place([], offs[1..]) + rest == rest;
    MergeCons(None, placed, rest, bucketSize);
    assert cs[0] == c && NBytes(c.meta) == |w.data|;
    assert Aligned(cs, offs, bucketSize) <==> offs[0] % w.dtype.itemSize == 0;
  }

  // ---------------------------------------------------------------- merging any stream

  function Joined(cs: seq<Chunk>): seq<Byte> {
    if cs == [] then [] else cs[0].data + Joined(cs[1..])
  }

  /** The chunks of g, on top of what is pending, make up the weight: each has its name and, unless the weight fits in one
      bucket, starts where the one before it ends. */
  ghost predicate MakesUp(pending: Option<Pending>, g: seq<Chunk>, w: Weight, bucketSize: nat) {
    g != [] && Named(g, w.name) &&
    match pending
    case Some(p) => (w.name, w.shape, w.dtype, w.data) == (p.name, p.shape, p.dtype, p.data + Joined(g)) && Adjacent(g, |p.data|)
    case None =>
      w == Weight(g[0].meta.name, g[0].meta.shape, g[0].meta.dtype, Joined(g)) &&
      if NBytes(g[0].meta) <= bucketSize then |g| == 1 && |w.data| == NBytes(g[0].meta) else Adjacent(g, 0)
  }

  ghost predicate Named(g: seq<Chunk>, name: string) {
    forall k :: 0 <= k < |g| ==> g[k].meta.name == name
  }

  /** Every chunk starts where the one before it ends, the first one at `from`. */
  ghost predicate Adjacent(g: seq<Chunk>, from: nat) {
    g == [] || (g[0].meta.chunkOffset == from && |g[0].data| == g[0].meta.chunkSize && Adjacent(g[1..], from + |g[0].data|))
  }

  /** The stream is the chunks of the merged weights one after the other, and then chunks of a single weight, if any. */
  ghost predicate Explains(pending: Option<Pending>, cs: seq<Chunk>, ws: seq<Weight>, groups: seq<seq<Chunk>>, rest: seq<Chunk>, bucketSize: nat) {
    cs == Flatten(groups) + rest && |groups| == |ws| &&
    (forall i :: 0 <= i < |ws| ==> MakesUp(if i == 0 then pending else None, groups[i], ws[i], bucketSize)) &&
    (rest != [] ==> Named(rest, if ws == [] && pending.Some? then pending.value.name else rest[0].meta.name))
  }

  /** A stream that is merged without an error, whatever it is: no chunk is lost, repeated or mixed into another weight,
      and nothing but an unfinished last weight is left over. */
  lemma MergeIsSound(cs: seq<Chunk>, bucketSize: nat) returns (groups: seq<seq<Chunk>>, rest: seq<Chunk>)
    requires Merge(cs, bucketSize).Ok?
    ensures Explains(None, cs, Merge(cs, bucketSize).value, groups, rest, bucketSize)
  {
    groups, rest := SoundFrom(None, cs, bucketSize);
  }

  lemma {:induction false} SoundFrom(pending: Option<Pending>, cs: seq<Chunk>, bucketSize: nat) returns (groups: seq<seq<Chunk>>, rest: seq<Chunk>)
    requires MergeFrom(pending, cs, bucketSize).Ok?
    ensures Explains(pending, cs, MergeFrom(pending, cs, bucketSize).value, groups, rest, bucketSize)
    decreases |cs|
  {
    if cs == [] {
      groups, rest := [], [];
    } else {
      var (next, out) := MergeStep(pending, cs[0], bucketSize).value;
      groups, rest := SoundFrom(next, cs[1..], bucketSize);
      var ws := MergeFrom(next, cs[1..], bucketSize).value;
      if out.Some? {
        Completes(pending, cs, ws, groups, rest, bucketSize, out.value);
        groups := [[cs[0]]] + groups;
      } else {
        if groups == [] {
          RestContinues(pending, cs, ws, rest, bucketSize, next.value);
          rest := [cs[0]] + rest;
        } else {
          GroupContinues(pending, cs, ws, groups, rest, bucketSize, next.value);
          groups := [[cs[0]] + groups[0]] + groups[1..];
        }
      }
    }
  }

  lemma Completes(pending: Option<Pending>, cs: seq<Chunk>, ws: seq<Weight>, groups: seq<seq<Chunk>>, rest: seq<Chunk>, bucketSize: nat, w: Weight)
    requires cs != [] && MergeStep(pending, cs[0], bucketSize) == Ok((None, Some(w)))
    requires Explains(None, cs[1..], ws, groups, rest, bucketSize)
    ensures Explains(pending, cs, [w] + ws, [[cs[0]]] + groups, rest, bucketSize)
  {
    FlattenCons([cs[0]], groups);
    assert cs == [cs[0]] + cs[1..];
    assert [cs[0]][1..] == [] && Joined([cs[0]]) == cs[0].data;
    assert MakesUp(pending, [cs[0]], w, bucketSize);
  }

  lemma RestContinues(pending: Option<Pending>, cs: seq<Chunk>, ws: seq<Weight>, rest: seq<Chunk>, bucketSize: nat, p: Pending)
    requires cs != [] && MergeStep(pending, cs[0], bucketSize) == Ok((Some(p), None))
    requires Explains(Some(p), cs[1..], ws, [], rest, bucketSize)
    ensures Explains(pending, cs, ws, [], [cs[0]] + rest, bucketSize)
  {
    assert cs[1..] == rest && cs == [cs[0]] + rest;
    assert Named([cs[0]] + rest, p.name);
  }

  lemma GroupContinues(pending: Option<Pending>, cs: seq<Chunk>, ws: seq<Weight>, groups: seq<seq<Chunk>>, rest: seq<Chunk>, bucketSize: nat, p: Pending)
    requires cs != [] && groups != [] && MergeStep(pending, cs[0], bucketSize) == Ok((Some(p), None))
    requires Explains(Some(p), cs[1..], ws, groups, rest, bucketSize)
    ensures Explains(pending, cs, ws, [[cs[0]] + groups[0]] + groups[1..], rest, bucketSize)
  {
    StreamContinues(cs, groups, rest);
    assert MakesUp(Some(p), groups[0], ws[0], bucketSize);
    FirstContinues(pending, cs[0], groups[0], ws[0], bucketSize, p);
    forall i | 1 <= i < |ws| ensures MakesUp(None, groups[1..][i - 1], ws[i], bucketSize) {
      assert MakesUp(None, groups[i], ws[i], bucketSize);
    }
  }

  lemma StreamContinues(cs: seq<Chunk>, groups: seq<seq<Chunk>>, rest: seq<Chunk>)
    requires cs != [] && groups != [] && cs[1..] == Flatten(groups) + rest
    ensures cs == Flatten([[cs[0]] + groups[0]] + groups[1..]) + rest
  {
    FlattenCons([cs[0]] + groups[0], groups[1..]);
    assert cs == [cs[0]] + (groups[0] + Flatten(groups[1..]) + rest);
  }

  lemma FirstContinues(pending: Option<Pending>, c: Chunk, g: seq<Chunk>, w: Weight, bucketSize: nat, p: Pending)
    requires MergeStep(pending, c, bucketSize) == Ok((Some(p), None)) && MakesUp(Some(p), g, w, bucketSize)
    ensures MakesUp(pending, [c] + g, w, bucketSize)
  {
    assert ([c] + g)[1..] == g;
    assert Joined([c] + g) == c.data + Joined(g);
    if pending.Some? {
      assert p.data + Joined(g) == pending.value.data + (c.data + Joined(g));
    } else {
      assert p.data == c.data;
    }
  }
}
