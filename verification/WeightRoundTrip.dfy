/** What splitting, packing, unpacking and merging do together. */
module WeightRoundTrip {
  import opened Arithmetic
  import opened BucketPacking
  import opened Outcomes
  import opened Sequences
  import opened WeightChunks

  /** What rank 0 sends for these weights. */
  function Groups(ws: seq<Weight>, bucketSize: nat): seq<seq<Chunk>>
    requires bucketSize > 0
  {
    Pack(SplitAll(ws, bucketSize), bucketSize, [])
  }

  /** The plan of offsets, computed from the sizes of the weights alone, aligns every weight that fits
      in one bucket: what has to hold before a byte is sent. */
  ghost predicate PlanAligned(ws: seq<Weight>, bucketSize: nat)
    requires bucketSize > 0
  {
    var cs := SplitAll(ws, bucketSize);
    Aligned(cs, Offsets(Sizes(cs), bucketSize, 0), bucketSize)
  }

  function UnpackAll(bs: seq<Bucket>, bucketSize: nat): seq<Chunk>
    requires forall k :: 0 <= k < |bs| ==> WellPlaced(bs[k], bucketSize)
  {
    if bs == [] then [] else assert WellPlaced(bs[0], bucketSize); Unpack(bs[0]) + UnpackAll(bs[1..], bucketSize)
  }

  lemma GroupsLaid(ws: seq<Weight>, bucketSize: nat)
    requires bucketSize > 0 && DistinctNames(ws)
    ensures AllLaid(Groups(ws, bucketSize), bucketSize)
    ensures forall k :: 0 <= k < |Groups(ws, bucketSize)| ==>
      WellPlaced(Buckets(Groups(ws, bucketSize))[k], bucketSize) &&
      Unpack(Buckets(Groups(ws, bucketSize))[k]) == Groups(ws, bucketSize)[k]
  {
    var gs := Groups(ws, bucketSize);
    SplitAllShape(ws, bucketSize);
    PackLaid(SplitAll(ws, bucketSize), bucketSize, []);
    forall k | 0 <= k < |gs|
      ensures WellPlaced(Buckets(gs)[k], bucketSize) && Unpack(Buckets(gs)[k]) == gs[k]
    {
      UnpackPacked(gs[k], bucketSize, k == |gs| - 1);
    }
  }

  lemma {:induction false} UnpackAllGroups(gs: seq<seq<Chunk>>, bs: seq<Bucket>, bucketSize: nat)
    requires |bs| == |gs| && forall k :: 0 <= k < |bs| ==> WellPlaced(bs[k], bucketSize) && Unpack(bs[k]) == gs[k]
    ensures UnpackAll(bs, bucketSize) == Flatten(gs)
  {
    if bs != [] {
      UnpackAllGroups(gs[1..], bs[1..], bucketSize);
    }
  }

  /** Round trip: the weights come back in order with their names, shapes, types and bytes, empty ones
      dropped, exactly when the plan of offsets is aligned; otherwise the view of a misaligned weight raises. */
  lemma RoundTrip(ws: seq<Weight>, bucketSize: nat)
    requires bucketSize > 0 && DistinctNames(ws) && AreTensors(ws)
    ensures forall k :: 0 <= k < |Groups(ws, bucketSize)| ==> WellPlaced(Buckets(Groups(ws, bucketSize))[k], bucketSize)
    ensures Merge(UnpackAll(Buckets(Groups(ws, bucketSize)), bucketSize), bucketSize)
              == if PlanAligned(ws, bucketSize) then Ok(NonEmpty(ws)) else Raise(Misaligned)
    ensures UnpackAll(Buckets(Groups(ws, bucketSize)), bucketSize) == Flatten(Groups(ws, bucketSize))
  {
    var cs := SplitAll(ws, bucketSize);
    GroupsLaid(ws, bucketSize);
    UnpackAllGroups(Groups(ws, bucketSize), Buckets(Groups(ws, bucketSize)), bucketSize);
    SplitAllShape(ws, bucketSize);
    PackIsPlacement(cs, bucketSize, []);
    assert [] + Placed(cs, bucketSize, 0) == Placed(cs, bucketSize, 0);
    MergeAfterSplit(ws, bucketSize, Offsets(Sizes(cs), bucketSize, 0));
  }

  /** A two-byte weight in front of a four-byte float: the second one starts at offset 2. */
  lemma MixedTypesMisalign()
    ensures var ws := [Weight("a", [1], DType("bfloat16", 2), [0, 0]), Weight("b", [1], DType("float32", 4), [0, 0, 0, 0])];
            AreTensors(ws) && DistinctNames(ws) && !PlanAligned(ws, 8)
  {
    var a := Weight("a", [1], DType("bfloat16", 2), [0, 0]);
    var b := Weight("b", [1], DType("float32", 4), [0, 0, 0, 0]);
    assert Numel([1]) == 1;
    var ca, cb := ChunkAt(a, 8, 0), ChunkAt(b, 8, 0);
    assert SplitFrom(a, 8, 0) == [ca] && SplitFrom(b, 8, 0) == [cb];
    assert [a, b][1..] == [b] && [b][1..] == [];
    assert SplitAll([b], 8) == [cb];
    assert SplitAll([a, b], 8) == [ca, cb];
    var offs := Offsets(Sizes([ca, cb]), 8, 0);
    assert Sizes([ca, cb]) == [2, 4] && [2, 4][1..] == [4];
    assert offs[1] == Offsets([4], 8, 2)[0] == 2;
    assert NBytes([ca, cb][1].meta) == 4;
  }

  // ---------------------------------------------------------------- when the plan is aligned

  ghost predicate IsProduct(q: nat, d: nat, n: nat) {
    q * d == n
  }

  ghost predicate MultipleOf(n: nat, d: nat) {
    exists q: nat :: IsProduct(q, d, n)
  }

  lemma MultipleSum(a: nat, b: nat, d: nat)
    requires d > 0 && MultipleOf(a, d) && MultipleOf(b, d)
    ensures MultipleOf(a + b, d)
    ensures a >= b ==> MultipleOf(a - b, d)
  {
    var x: nat :| IsProduct(x, d, a);
    var y: nat :| IsProduct(y, d, b);
    assert IsProduct(x + y, d, a + b);
    if a >= b {
      assert (x - y) * d == a - b;
      ProductSign(x - y, d);
      assert IsProduct(x - y, d, a - b);
    }
  }

  lemma ProductSign(k: int, d: nat)
    requires d > 0
    ensures (k >= 1 ==> k * d >= d) && (k <= -1 ==> k * d + d <= 0)
  {
  }

  lemma ModOfProduct(q: nat, d: nat)
    requires d > 0
    ensures (q * d) % d == 0
  {
    var n: int := q * d;
    assert (q - n / d) * d == n % d;
    ProductSign(q - n / d, d);
  }

  ghost predicate AllMultiples(cs: seq<Chunk>, d: nat)
  {
    forall i :: 0 <= i < |cs| ==> MultipleOf(|cs[i].data|, d)
  }

  lemma {:induction false} SplitMultiples(w: Weight, bucketSize: nat, from: nat, d: nat)
    requires d > 0 && bucketSize > 0 && MultipleOf(bucketSize, d) && MultipleOf(|w.data|, d)
    requires from <= |w.data| && MultipleOf(from, d)
    ensures AllMultiples(SplitFrom(w, bucketSize, from), d)
    decreases |w.data| - from
  {
    if from < |w.data| {
      var c := ChunkAt(w, bucketSize, from);
      var size := |c.data|;
      MultipleSum(|w.data|, from, d);
      MultipleSum(from, size, d);
      SplitMultiples(w, bucketSize, from + size, d);
      assert AllMultiples([c] + SplitFrom(w, bucketSize, from + size), d);
    }
  }

  ghost predicate AllOfSize(cs: seq<Chunk>, d: nat) {
    forall i :: 0 <= i < |cs| ==> cs[i].meta.dtype.itemSize == d
  }

  lemma {:induction false} SplitAllMultiples(ws: seq<Weight>, bucketSize: nat, d: nat)
    requires d > 0 && bucketSize > 0 && MultipleOf(bucketSize, d) && AreTensors(ws)
    requires forall i :: 0 <= i < |ws| ==> ws[i].dtype.itemSize == d
    ensures AllMultiples(SplitAll(ws, bucketSize), d) && AllOfSize(SplitAll(ws, bucketSize), d)
  {
    if ws != [] {
      assert IsProduct(Numel(ws[0].shape), d, |ws[0].data|) && IsProduct(0, d, 0);
      SplitMultiples(ws[0], bucketSize, 0, d);
      SplitDType(ws[0], bucketSize, 0);
      SplitAllMultiples(ws[1..], bucketSize, d);
      var a, b := SplitFrom(ws[0], bucketSize, 0), SplitAll(ws[1..], bucketSize);
      assert AllMultiples(a + b, d) && AllOfSize(a + b, d);
    }
  }

  lemma {:induction false} SplitDType(w: Weight, bucketSize: nat, from: nat)
    requires bucketSize > 0 && from <= |w.data|
    ensures AllOfSize(SplitFrom(w, bucketSize, from), w.dtype.itemSize)
    decreases |w.data| - from
  {
    if from < |w.data| {
      var c := ChunkAt(w, bucketSize, from);
      SplitDType(w, bucketSize, from + |c.data|);
      assert AllOfSize([c] + SplitFrom(w, bucketSize, from + |c.data|), w.dtype.itemSize);
    }
  }

  lemma {:induction false} OffsetMultiples(sizes: seq<nat>, bucketSize: nat, offset: nat, d: nat, i: nat)
    requires d > 0 && MultipleOf(offset, d) && forall k :: 0 <= k < |sizes| ==> MultipleOf(sizes[k], d)
    requires i < |sizes|
    ensures MultipleOf(Offsets(sizes, bucketSize, offset)[i], d)
  {
    assert IsProduct(0, d, 0);
    var at := if offset + sizes[0] > bucketSize then 0 else offset;
    if i > 0 {
      MultipleSum(at, sizes[0], d);
      OffsetMultiples(sizes[1..], bucketSize, at + sizes[0], d, i - 1);
    }
  }

  /** One element size, dividing the bucket size, is enough for every weight to come back. */
  lemma UniformRoundTrip(ws: seq<Weight>, bucketSize: nat, itemSize: nat)
    requires bucketSize > 0 && DistinctNames(ws) && AreTensors(ws)
    requires itemSize > 0 && bucketSize % itemSize == 0
    requires forall i :: 0 <= i < |ws| ==> ws[i].dtype.itemSize == itemSize
    ensures PlanAligned(ws, bucketSize)
    ensures forall k :: 0 <= k < |Groups(ws, bucketSize)| ==> WellPlaced(Buckets(Groups(ws, bucketSize))[k], bucketSize)
    ensures Merge(UnpackAll(Buckets(Groups(ws, bucketSize)), bucketSize), bucketSize) == Ok(NonEmpty(ws))
  {
    var cs := SplitAll(ws, bucketSize);
    var offs := Offsets(Sizes(cs), bucketSize, 0);
    assert IsProduct(bucketSize / itemSize, itemSize, bucketSize) && IsProduct(0, itemSize, 0);
    SplitAllMultiples(ws, bucketSize, itemSize);
    forall i | 0 <= i < |cs| ensures offs[i] % itemSize == 0 {
      OffsetMultiples(Sizes(cs), bucketSize, 0, itemSize, i);
      var q: nat :| IsProduct(q, itemSize, offs[i]);
      ModOfProduct(q, itemSize);
    }
    RoundTrip(ws, bucketSize);
  }

  // ---------------------------------------------------------------- how many buckets

  lemma {:induction false} PackCount(cs: seq<Chunk>, bucketSize: nat, current: seq<Chunk>)
    requires Sized(cs, bucketSize) && Laid(current, bucketSize)
    ensures var gs := Pack(cs, bucketSize, current);
            |gs| > 0 && (|gs| - 1) * bucketSize <= 2 * |Content(cs)| + |Content(current)|
    decreases |cs|
  {
    if cs != [] {
      var next := After(current, cs[0], bucketSize);
      var rest := Pack(cs[1..], bucketSize, next);
      AfterLaid(current, cs[0], bucketSize);
      PackCount(cs[1..], bucketSize, next);
      if |Content(current)| + |cs[0].data| > bucketSize {
        assert (|rest| + 1 - 1) * bucketSize == (|rest| - 1) * bucketSize + bucketSize;
      }
    }
  }

  ghost predicate NoneEmpty(groups: seq<seq<Chunk>>) {
    forall k :: 0 <= k < |groups| ==> groups[k] != []
  }

  lemma {:induction false} PackNonEmpty(cs: seq<Chunk>, bucketSize: nat, current: seq<Chunk>)
    requires Sized(cs, bucketSize)
    ensures current != [] || cs != [] ==> NoneEmpty(Pack(cs, bucketSize, current))
    decreases |cs|
  {
    if cs != [] {
      var next := After(current, cs[0], bucketSize);
      assert Content([]) == [];
      PackNonEmpty(cs[1..], bucketSize, next);
      var rest := Pack(cs[1..], bucketSize, next);
      assert current != [] ==> NoneEmpty([current] + rest);
    }
  }

  lemma {:induction false} SplitContent(w: Weight, bucketSize: nat, from: nat)
    requires bucketSize > 0 && from <= |w.data|
    ensures Content(SplitFrom(w, bucketSize, from)) == w.data[from..]
    decreases |w.data| - from
  {
    if from < |w.data| {
      var c := ChunkAt(w, bucketSize, from);
      SplitContent(w, bucketSize, from + |c.data|);
      assert SplitFrom(w, bucketSize, from)[1..] == SplitFrom(w, bucketSize, from + |c.data|);
    }
  }

  function AllBytes(ws: seq<Weight>): seq<Byte> {
    if ws == [] then [] else ws[0].data + AllBytes(ws[1..])
  }

  lemma {:induction false} SplitAllContent(ws: seq<Weight>, bucketSize: nat)
    requires bucketSize > 0
    ensures Content(SplitAll(ws, bucketSize)) == AllBytes(ws)
  {
    if ws != [] {
      SplitContent(ws[0], bucketSize, 0);
      SplitAllContent(ws[1..], bucketSize);
      ContentAppend(SplitFrom(ws[0], bucketSize, 0), SplitAll(ws[1..], bucketSize));
      assert ws[0].data[0..] == ws[0].data;
    }
  }

  /** Greedy packing of T bytes uses at most 2T/S + 1 buckets, none of them empty unless there is nothing to send,
      and no byte is lost or sent twice. */
  lemma PackingBound(ws: seq<Weight>, bucketSize: nat)
    requires bucketSize > 0 && DistinctNames(ws)
    ensures var gs := Groups(ws, bucketSize);
            |gs| * bucketSize <= 2 * |AllBytes(ws)| + bucketSize &&
            (if AllBytes(ws) == [] then gs == [[]] else NoneEmpty(gs)) &&
            AllLaid(gs, bucketSize) &&
            Content(Flatten(gs)) == AllBytes(ws)
  {
    var cs := SplitAll(ws, bucketSize);
    var gs := Groups(ws, bucketSize);
    SplitAllShape(ws, bucketSize);
    SplitAllContent(ws, bucketSize);
    BucketCount(ws, bucketSize);
    PackNonEmpty(cs, bucketSize, []);
    if cs != [] { ContentAtLeast(cs, 0); }
    PackLaid(cs, bucketSize, []);
    GroupsBytes(ws, bucketSize);
  }

  lemma BucketCount(ws: seq<Weight>, bucketSize: nat)
    requires bucketSize > 0 && DistinctNames(ws)
    ensures |Groups(ws, bucketSize)| * bucketSize <= 2 * |AllBytes(ws)| + bucketSize
  {
    var n := |Groups(ws, bucketSize)|;
    assert (n - 1) * bucketSize <= 2 * |AllBytes(ws)| by {
      SplitAllShape(ws, bucketSize);
      SplitAllContent(ws, bucketSize);
      PackCount(SplitAll(ws, bucketSize), bucketSize, []);
    }
    assert n * bucketSize == (n - 1) * bucketSize + bucketSize;
  }

  lemma GroupsBytes(ws: seq<Weight>, bucketSize: nat)
    requires bucketSize > 0 && DistinctNames(ws)
    ensures Content(Flatten(Groups(ws, bucketSize))) == AllBytes(ws)
  {
    var cs := SplitAll(ws, bucketSize);
    SplitAllShape(ws, bucketSize);
    SplitAllContent(ws, bucketSize);
    PackIsPlacement(cs, bucketSize, []);
    assert [] + Placed(cs, bucketSize, 0) == Placed(cs, bucketSize, 0);
    PlaceContent(cs, Offsets(Sizes(cs), bucketSize, 0));
  }

  lemma {:induction false} PlaceContent(cs: seq<Chunk>, offs: seq<nat>)
    requires |cs| == |offs|
    ensures Content(Place(cs, offs)) == Content(cs)
  {
    if cs != [] {
      PlaceContent(cs[1..], offs[1..]);
      assert Place(cs, offs)[1..] == Place(cs[1..], offs[1..]);
    }
  }
}
