/** Packing chunks greedily into fixed-size buckets, and reading them back
    (the packing loop of send_weights and the yield loops of _receive_weight_chunks). */
module BucketPacking {
  import opened Outcomes
  import opened Sequences
  import opened WeightChunks

  /** What one transfer carries: the bucket_meta dictionary in insertion order, and the used bytes. */
  datatype Bucket = Bucket(metas: seq<TensorMeta>, content: seq<Byte>, isLast: bool)

  function Content(cs: seq<Chunk>): seq<Byte> {
    if cs == [] then [] else cs[0].data + Content(cs[1..])
  }

  function Metas(cs: seq<Chunk>): seq<TensorMeta> {
    seq(|cs|, i requires 0 <= i < |cs| => cs[i].meta)
  }

  function Sizes(cs: seq<Chunk>): seq<nat> {
    seq(|cs|, i requires 0 <= i < |cs| => |cs[i].data|)
  }

  function PutAt(c: Chunk, offset: nat): Chunk {
    Chunk(c.meta.(offset := Some(offset)), c.data)
  }

  /** The open bucket after the first of the remaining chunks has been added to it, or to a new one. */
  function After(current: seq<Chunk>, c: Chunk, bucketSize: nat): seq<Chunk> {
    if |Content(current)| + |c.data| > bucketSize then [PutAt(c, 0)] else current + [PutAt(c, |Content(current)|)]
  }

  /** The chunks grouped by bucket, when `current` already is in the open bucket. */
  function Pack(cs: seq<Chunk>, bucketSize: nat, current: seq<Chunk>): seq<seq<Chunk>>
    decreases |cs|
  {
    if cs == [] then [current]
    else
      var rest := Pack(cs[1..], bucketSize, After(current, cs[0], bucketSize));
      if |Content(current)| + |cs[0].data| > bucketSize then [current] + rest else rest
  }

  /** The offset of each chunk in its bucket, from the sizes alone. */
  function Offsets(sizes: seq<nat>, bucketSize: nat, offset: nat): (offs: seq<nat>)
    ensures |offs| == |sizes|
  {
    if sizes == [] then []
    else
      var at := if offset + sizes[0] > bucketSize then 0 else offset;
      [at] + Offsets(sizes[1..], bucketSize, at + sizes[0])
  }

  lemma {:induction false} ContentAppend(a: seq<Chunk>, b: seq<Chunk>)
    ensures Content(a + b) == Content(a) + Content(b)
  {
    if a == [] {
      assert a + b == b;
    } else {
      assert (a + b)[1..] == a[1..] + b;
      ContentAppend(a[1..], b);
    }
  }

  lemma ContentSnoc(cs: seq<Chunk>, c: Chunk)
    ensures Content(cs + [c]) == Content(cs) + c.data
  {
    ContentAppend(cs, [c]);
    assert [c][1..] == [];
  }

  /** A group of chunks laid out one after another within one bucket. */
  ghost predicate Laid(group: seq<Chunk>, bucketSize: nat) {
    |Content(group)| <= bucketSize &&
    forall i :: 0 <= i < |group| ==>
      group[i].meta.offset == Some(|Content(group[..i])|) && group[i].meta.chunkSize == |group[i].data|
  }

  lemma LaidSnoc(group: seq<Chunk>, c: Chunk, bucketSize: nat)
    requires Laid(group, bucketSize) && c.meta.chunkSize == |c.data|
    requires |Content(group)| + |c.data| <= bucketSize
    ensures Laid(group + [PutAt(c, |Content(group)|)], bucketSize)
  {
    var g := group + [PutAt(c, |Content(group)|)];
    ContentSnoc(group, PutAt(c, |Content(group)|));
    forall i | 0 <= i < |g|
      ensures g[i].meta.offset == Some(|Content(g[..i])|) && g[i].meta.chunkSize == |g[i].data|
    {
      if i < |group| {
        assert g[..i] == group[..i];
      } else {
        assert g[..i] == group;
      }
    }
  }

  lemma AfterLaid(current: seq<Chunk>, c: Chunk, bucketSize: nat)
    requires Laid(current, bucketSize) && 0 < |c.data| <= bucketSize && c.meta.chunkSize == |c.data|
    ensures var next := After(current, c, bucketSize);
            var at := if |Content(current)| + |c.data| > bucketSize then 0 else |Content(current)|;
            Laid(next, bucketSize) && |Content(next)| == at + |c.data|
  {
    if |Content(current)| + |c.data| > bucketSize {
      assert Laid([], bucketSize);
      LaidSnoc([], c, bucketSize);
      ContentSnoc([], PutAt(c, 0));
      assert [] + [PutAt(c, 0)] == [PutAt(c, 0)];
    } else {
      LaidSnoc(current, c, bucketSize);
      ContentSnoc(current, PutAt(c, |Content(current)|));
    }
  }

  lemma PlaceFirst(cs: seq<Chunk>, bucketSize: nat, offset: nat)
    requires cs != []
    ensures var at := if offset + |cs[0].data| > bucketSize then 0 else offset;
            Place(cs, Offsets(Sizes(cs), bucketSize, offset))
              == [PutAt(cs[0], at)] + Place(cs[1..], Offsets(Sizes(cs[1..]), bucketSize, at + |cs[0].data|))
  {
    assert Sizes(cs)[1..] == Sizes(cs[1..]);
  }

  function Placed(cs: seq<Chunk>, bucketSize: nat, offset: nat): seq<Chunk> {
    Place(cs, Offsets(Sizes(cs), bucketSize, offset))
  }

  lemma PlacedAfter(cs: seq<Chunk>, bucketSize: nat, current: seq<Chunk>)
    requires cs != [] && |Content(After(current, cs[0], bucketSize))|
      == (if |Content(current)| + |cs[0].data| > bucketSize then 0 else |Content(current)|) + |cs[0].data|
    ensures var next := After(current, cs[0], bucketSize);
            next + Placed(cs[1..], bucketSize, |Content(next)|)
              == (if |Content(current)| + |cs[0].data| > bucketSize then [] else current) + Placed(cs, bucketSize, |Content(current)|)
  {
    PlaceFirst(cs, bucketSize, |Content(current)|);
  }

  /** Packing keeps every chunk, in order, at the offset computed from the sizes. */
  lemma {:induction false} PackIsPlacement(cs: seq<Chunk>, bucketSize: nat, current: seq<Chunk>)
    requires Sized(cs, bucketSize) && Laid(current, bucketSize)
    ensures Flatten(Pack(cs, bucketSize, current)) == current + Placed(cs, bucketSize, |Content(current)|)
    decreases |cs|
  {
    if cs == [] {
      FlattenOne(current);
      assert Placed(cs, bucketSize, |Content(current)|) == [];
    } else {
      var next := After(current, cs[0], bucketSize);
      AfterLaid(current, cs[0], bucketSize);
      PlacedAfter(cs, bucketSize, current);
      PackIsPlacement(cs[1..], bucketSize, next);
      FlattenCons(current, Pack(cs[1..], bucketSize, next));
    }
  }

  ghost predicate AllLaid(groups: seq<seq<Chunk>>, bucketSize: nat) {
    forall k :: 0 <= k < |groups| ==> Laid(groups[k], bucketSize)
  }

  /** No bucket overflows, and every header of a bucket points at its own bytes. */
  lemma {:induction false} PackLaid(cs: seq<Chunk>, bucketSize: nat, current: seq<Chunk>)
    requires Sized(cs, bucketSize) && Laid(current, bucketSize)
    ensures AllLaid(Pack(cs, bucketSize, current), bucketSize)
    decreases |cs|
  {
    if cs != [] {
      AfterLaid(current, cs[0], bucketSize);
      var rest := Pack(cs[1..], bucketSize, After(current, cs[0], bucketSize));
      PackLaid(cs[1..], bucketSize, After(current, cs[0], bucketSize));
      assert AllLaid([current] + rest, bucketSize);
    }
  }

  // ---------------------------------------------------------------- the wire format

  function BucketOf(group: seq<Chunk>, isLast: bool): Bucket {
    Bucket(Metas(group), Content(group), isLast)
  }

  function Buckets(groups: seq<seq<Chunk>>): seq<Bucket> {
    seq(|groups|, k requires 0 <= k < |groups| => BucketOf(groups[k], k == |groups| - 1))
  }

  /** The bucket fits, and every header points inside it. */
  ghost predicate InBounds(b: Bucket, bucketSize: nat) {
    |b.content| <= bucketSize &&
    forall j :: 0 <= j < |b.metas| ==>
      b.metas[j].offset.Some? && b.metas[j].offset.value + b.metas[j].chunkSize <= |b.content|
  }

  /** The slices follow one another without overlap. */
  ghost predicate WellPlaced(b: Bucket, bucketSize: nat) {
    InBounds(b, bucketSize) &&
    forall i, j :: 0 <= i < j < |b.metas| ==> b.metas[i].offset.value + b.metas[i].chunkSize <= b.metas[j].offset.value
  }

  function Slice(buffer: seq<Byte>, meta: TensorMeta): Chunk
    requires meta.offset.Some? && meta.offset.value + meta.chunkSize <= |buffer|
  {
    Chunk(meta, buffer[meta.offset.value..meta.offset.value + meta.chunkSize])
  }

  function Unpack(b: Bucket): seq<Chunk>
    requires forall j :: 0 <= j < |b.metas| ==>
      b.metas[j].offset.Some? && b.metas[j].offset.value + b.metas[j].chunkSize <= |b.content|
  {
    seq(|b.metas|, j requires 0 <= j < |b.metas| => Slice(b.content, b.metas[j]))
  }

  lemma {:induction false} ContentSplit(group: seq<Chunk>, i: nat)
    requires i < |group|
    ensures Content(group) == Content(group[..i + 1]) + Content(group[i + 1..])
    ensures Content(group[..i + 1]) == Content(group[..i]) + group[i].data
  {
    assert Content(group) == Content(group[..i + 1]) + Content(group[i + 1..]) by {
      assert group == group[..i + 1] + group[i + 1..];
      ContentAppend(group[..i + 1], group[i + 1..]);
    }
    assert Content(group[..i + 1]) == Content(group[..i]) + group[i].data by {
      assert group[..i + 1] == group[..i] + [group[i]];
      ContentSnoc(group[..i], group[i]);
    }
  }

  /** Reading a packed bucket back slice by slice gives the group of chunks that went in. */
  lemma UnpackPacked(group: seq<Chunk>, bucketSize: nat, isLast: bool)
    requires Laid(group, bucketSize)
    ensures WellPlaced(BucketOf(group, isLast), bucketSize) && Unpack(BucketOf(group, isLast)) == group
  {
    var b := BucketOf(group, isLast);
    forall j | 0 <= j < |group|
      ensures b.metas[j].offset.Some? && b.metas[j].offset.value + b.metas[j].chunkSize <= |b.content|
      ensures Slice(b.content, b.metas[j]) == group[j]
    {
      ContentSplit(group, j);
      var at := |Content(group[..j])|;
      assert b.content[at..at + |group[j].data|] == group[j].data;
    }
    forall i, j | 0 <= i < j < |group|
      ensures b.metas[i].offset.value + b.metas[i].chunkSize <= b.metas[j].offset.value
    {
      ContentSplit(group[..j], i);
      assert group[..j][..i] == group[..i] && group[..j][..i + 1] == group[..i + 1];
    }
  }

  // ---------------------------------------------------------------- the packing loop

  lemma {:induction false} ContentAtLeast(cs: seq<Chunk>, k: nat)
    requires k < |cs|
    ensures |Content(cs)| >= |cs[k].data|
  {
    ContentSplit(cs, k);
  }

  /** `current` is the run of chunks just before position i, with their bucket offsets filled in. */
  ghost predicate IsTailOf(current: seq<Chunk>, cs: seq<Chunk>, i: nat) {
    |current| <= i <= |cs| &&
    forall k :: 0 <= k < |current| ==>
      current[k].data == cs[i - |current| + k].data && current[k].meta.name == cs[i - |current| + k].meta.name
  }

  /** Two chunks of one weight never meet in a bucket: the earlier one is as large as a bucket. */
  lemma NameNotInBucket(cs: seq<Chunk>, i: nat, bucketSize: nat, current: seq<Chunk>)
    requires Sized(cs, bucketSize) && FullUnlessLast(cs, bucketSize) && i < |cs|
    requires IsTailOf(current, cs, i) && |Content(current)| + |cs[i].data| <= bucketSize
    ensures forall k :: 0 <= k < |Metas(current)| ==> Metas(current)[k].name != cs[i].meta.name
  {
    forall k | 0 <= k < |current| ensures current[k].meta.name != cs[i].meta.name {
      if current[k].meta.name == cs[i].meta.name {
        ContentAtLeast(current, k);
      }
    }
  }

  function Launched(groups: seq<seq<Chunk>>): seq<Bucket> {
    seq(|groups|, k requires 0 <= k < |groups| => BucketOf(groups[k], false))
  }

  lemma LaunchedSnoc(groups: seq<seq<Chunk>>, group: seq<Chunk>)
    ensures Launched(groups + [group]) == Launched(groups) + [BucketOf(group, false)]
    ensures Buckets(groups + [group]) == Launched(groups) + [BucketOf(group, true)]
  {
  }

  lemma MetasSnoc(current: seq<Chunk>, c: Chunk)
    ensures Metas(current + [c]) == Metas(current) + [c.meta]
  {
  }

  /** The loop has handled the first i chunks: the rest is still to be packed, behind the closed buckets and the open one. */
  ghost predicate PackingAt(cs: seq<Chunk>, i: nat, bucketSize: nat, closed: seq<seq<Chunk>>, open: seq<Chunk>) {
    IsTailOf(open, cs, i) && |Content(open)| <= bucketSize &&
    Pack(cs, bucketSize, []) == closed + Pack(cs[i..], bucketSize, open)
  }

  /** A bucket with one more chunk, placed behind the others. */
  ghost function With(open: seq<Chunk>, c: Chunk): seq<Chunk> {
    open + [PutAt(c, |Content(open)|)]
  }

  /** A chunk that does not fit closes the open bucket. */
  lemma PackClose(cs: seq<Chunk>, i: nat, bucketSize: nat, closed: seq<seq<Chunk>>, open: seq<Chunk>)
    requires PackingAt(cs, i, bucketSize, closed, open) && i < |cs|
    requires |cs[i].data| <= bucketSize < |Content(open)| + |cs[i].data|
    ensures PackingAt(cs, i, bucketSize, closed + [open], [])
  {
    PackStep(cs, i, bucketSize, open);
    PackStep(cs, i, bucketSize, []);
    Regroup(closed, [open], Pack(cs[i..], bucketSize, []));
  }

  lemma PackAdd(cs: seq<Chunk>, i: nat, bucketSize: nat, closed: seq<seq<Chunk>>, open: seq<Chunk>)
    requires PackingAt(cs, i, bucketSize, closed, open) && i < |cs| && |Content(open)| + |cs[i].data| <= bucketSize
    ensures PackingAt(cs, i + 1, bucketSize, closed, With(open, cs[i]))
  {
    PackStep(cs, i, bucketSize, open);
    WithTail(cs, i, open);
  }

  lemma WithTail(cs: seq<Chunk>, i: nat, open: seq<Chunk>)
    requires IsTailOf(open, cs, i) && i < |cs|
    ensures IsTailOf(With(open, cs[i]), cs, i + 1)
    ensures |Content(With(open, cs[i]))| == |Content(open)| + |cs[i].data|
  {
    ContentSnoc(open, PutAt(cs[i], |Content(open)|));
  }

  lemma PackStep(cs: seq<Chunk>, i: nat, bucketSize: nat, open: seq<Chunk>)
    requires i < |cs|
    ensures Pack(cs[i..], bucketSize, open) ==
            if |Content(open)| + |cs[i].data| > bucketSize then [open] + Pack(cs[i + 1..], bucketSize, With([], cs[i]))
            else Pack(cs[i + 1..], bucketSize, With(open, cs[i]))
  {
    assert cs[i..][0] == cs[i] && cs[i..][1..] == cs[i + 1..];
    assert With([], cs[i]) == [PutAt(cs[i], 0)];
  }

  lemma Regroup<T>(a: seq<T>, b: seq<T>, c: seq<T>)
    ensures a + (b + c) == (a + b) + c
  {
  }

  lemma ChunkFits(weights: seq<Weight>, bucketSize: nat, i: nat)
    requires bucketSize > 0 && DistinctNames(weights) && i < |SplitAll(weights, bucketSize)|
    ensures var c := SplitAll(weights, bucketSize)[i]; c.meta.chunkSize == |c.data| <= bucketSize
  {
    SplitAllShape(weights, bucketSize);
  }

  lemma NameIsNew(weights: seq<Weight>, bucketSize: nat, i: nat, open: seq<Chunk>)
    requires bucketSize > 0 && DistinctNames(weights) && i < |SplitAll(weights, bucketSize)|
    requires IsTailOf(open, SplitAll(weights, bucketSize), i)
    requires |Content(open)| + |SplitAll(weights, bucketSize)[i].data| <= bucketSize
    ensures forall k :: 0 <= k < |Metas(open)| ==> Metas(open)[k].name != SplitAll(weights, bucketSize)[i].meta.name
  {
    SplitAllShape(weights, bucketSize);
    NameNotInBucket(SplitAll(weights, bucketSize), i, bucketSize, open);
  }

  lemma LastBucket(cs: seq<Chunk>, bucketSize: nat, closed: seq<seq<Chunk>>, open: seq<Chunk>)
    requires PackingAt(cs, |cs|, bucketSize, closed, open)
    ensures Launched(closed) + [BucketOf(open, true)] == Buckets(Pack(cs, bucketSize, []))
  {
    LaunchedSnoc(closed, open);
  }

  /** The sender's loop over two swapped byte buffers. `sent` is what each transfer is launched with. */
  method SendWeights(weights: seq<Weight>, bucketSize: nat) returns (sent: seq<Bucket>)
    requires bucketSize > 0 && DistinctNames(weights)
    ensures sent == Buckets(Pack(SplitAll(weights, bucketSize), bucketSize, []))
  {
    var sendBuf, recvBuf := new Byte[bucketSize], new Byte[bucketSize];
    var bucketMeta: seq<TensorMeta> := [];
    var offset := 0;
    sent := [];
    ghost var closed: seq<seq<Chunk>>, open: seq<Chunk> := [], [];
    var chunks := SplitWeightChunks(weights, bucketSize);
    assert chunks[0..] == chunks;
    for i := 0 to |chunks|
      invariant sendBuf != recvBuf && fresh(sendBuf) && fresh(recvBuf) && sendBuf.Length == recvBuf.Length == bucketSize
      invariant 0 <= offset <= bucketSize && sendBuf[..offset] == Content(open) && bucketMeta == Metas(open)
      invariant sent == Launched(closed) && PackingAt(chunks, i, bucketSize, closed, open)
    {
      var c := chunks[i];
      ChunkFits(weights, bucketSize, i);
      if offset + c.meta.chunkSize > bucketSize {
        LaunchedSnoc(closed, open);
        PackClose(chunks, i, bucketSize, closed, open);
        sent := sent + [Bucket(bucketMeta, sendBuf[..offset], false)];
        closed, open := closed + [open], [];
        sendBuf, recvBuf := recvBuf, sendBuf;
        bucketMeta := [];
        offset := 0;
      }
      assert offset + c.meta.chunkSize <= bucketSize;
      NameIsNew(weights, bucketSize, i, open);
      bucketMeta, offset := AddToBucket(sendBuf, bucketMeta, offset, c, open);
      PackAdd(chunks, i, bucketSize, closed, open);
      open := With(open, c);
    }
    sent := sent + [Bucket(bucketMeta, sendBuf[..offset], true)];
    LastBucket(chunks, bucketSize, closed, open);
  }

  /** Adds a chunk behind the chunks of the open bucket: its header to the dictionary, its bytes to the buffer. */
  method AddToBucket(buffer: array<Byte>, bucketMeta: seq<TensorMeta>, offset: nat, c: Chunk, ghost current: seq<Chunk>)
    returns (metas: seq<TensorMeta>, end: nat)
    requires c.meta.chunkSize == |c.data| && offset + |c.data| <= buffer.Length && buffer[..offset] == Content(current)
    requires bucketMeta == Metas(current) && forall k :: 0 <= k < |bucketMeta| ==> bucketMeta[k].name != c.meta.name
    modifies buffer
    ensures metas == Metas(current + [PutAt(c, offset)])
    ensures end == offset + c.meta.chunkSize == |Content(current + [PutAt(c, offset)])|
    ensures buffer[..end] == Content(current + [PutAt(c, offset)])
    ensures buffer[end..] == old(buffer[end..])
  {
    MetasSnoc(current, PutAt(c, offset));
    ContentSnoc(current, PutAt(c, offset));
    metas := bucketMeta + [c.meta.(offset := Some(offset))];
    ghost var filled := buffer[..offset];
    forall k | 0 <= k < |c.data| { buffer[offset + k] := c.data[k]; }
    end := offset + c.meta.chunkSize;
    assert buffer[..end] == filled + c.data;
  }
}
