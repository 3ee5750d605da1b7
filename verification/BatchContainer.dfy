/** Batches of rows with tensor and non-tensor columns (verl/protocol.py): padding, chunks, and futures of chunks. */
module BatchContainer {
  import opened Arithmetic
  import opened Outcomes
  import opened Sequences
  import opened TensorOps

  /** A DataProto of `size` rows: the tensors row by row, and the non-tensor columns. */
  datatype Proto<R, V> = Proto(size: nat, batch: Option<seq<R>>, columns: map<string, seq<V>>)

  ghost predicate Consistent<R, V>(p: Proto<R, V>) {
    (p.batch.Some? ==> |p.batch.value| == p.size) && forall k :: k in p.columns ==> |p.columns[k]| == p.size
  }

  ghost predicate Alike<R, V>(p: Proto<R, V>, q: Proto<R, V>) {
    (p.batch.Some? <==> q.batch.Some?) && p.columns.Keys == q.columns.Keys
  }

  function Slice<R, V>(p: Proto<R, V>, a: nat, b: nat): (q: Proto<R, V>)
    requires Consistent(p) && a <= b <= p.size
    ensures Consistent(q) && Alike(p, q)
  {
    Proto(b - a, if p.batch.Some? then Some(p.batch.value[a..b]) else None, map k | k in p.columns :: p.columns[k][a..b])
  }

  function Append<R, V>(p: Proto<R, V>, q: Proto<R, V>): (r: Proto<R, V>)
    requires Consistent(p) && Consistent(q) && Alike(p, q)
    ensures Consistent(r) && Alike(p, r)
  {
    Proto(p.size + q.size, if p.batch.Some? then Some(p.batch.value + q.batch.value) else None,
          map k | k in p.columns :: p.columns[k] + q.columns[k])
  }

  ghost predicate AllAlike<R, V>(ps: seq<Proto<R, V>>) {
    forall i :: 0 <= i < |ps| ==> Consistent(ps[i]) && Alike(ps[0], ps[i])
  }

  /** DataProto.concat. */
  function Concat<R, V>(ps: seq<Proto<R, V>>): (r: Proto<R, V>)
    requires ps != [] && AllAlike(ps)
    ensures Consistent(r) && Alike(ps[0], r)
  {
    if |ps| == 1 then ps[0] else Append(Concat(ps[..|ps| - 1]), ps[|ps| - 1])
  }

  lemma ConcatSnoc<R, V>(ps: seq<Proto<R, V>>, p: Proto<R, V>)
    requires ps != [] && AllAlike(ps) && Consistent(p) && Alike(ps[0], p)
    ensures AllAlike(ps + [p]) && Concat(ps + [p]) == Append(Concat(ps), p)
  {
    assert (ps + [p])[..|ps|] == ps;
  }

  /** Row i of q is row j of p, in every column. */
  ghost predicate SameRow<R, V>(q: Proto<R, V>, i: nat, p: Proto<R, V>, j: nat)
    requires Consistent(q) && Consistent(p) && Alike(p, q) && i < q.size && j < p.size
  {
    (p.batch.Some? ==> q.batch.value[i] == p.batch.value[j]) && forall k :: k in p.columns ==> q.columns[k][i] == p.columns[k][j]
  }

  // ---------------------------------------------------------------- padding

  /** The rows of p over and over. */
  ghost predicate Cyclic<R, V>(q: Proto<R, V>, p: Proto<R, V>) {
    Consistent(q) && Consistent(p) && Alike(p, q) && (q.size > 0 ==> p.size > 0) &&
    forall i :: 0 <= i < q.size ==> SameRow(q, i, p, i % p.size)
  }

  lemma CyclicNext<R, V>(q: Proto<R, V>, p: Proto<R, V>, take: nat)
    requires Cyclic(q, p) && p.size > 0 && q.size % p.size == 0 && take <= p.size
    ensures Cyclic(Append(q, Slice(p, 0, take)), p)
  {
    var r := Append(q, Slice(p, 0, take));
    forall i | 0 <= i < r.size ensures SameRow(r, i, p, i % p.size) {
      if i < q.size {
        assert SameRow(q, i, p, i % p.size);
      } else {
        DivUnique(i, p.size, q.size / p.size, i - q.size);
      }
    }
  }

  lemma CyclicSelf<R, V>(p: Proto<R, V>)
    requires Consistent(p)
    ensures Cyclic(p, p)
  {
    forall i | 0 <= i < p.size ensures SameRow(p, i, p, i % p.size) { DivUnique(i, p.size, 0, i); }
  }

  lemma PadFills(n: nat, d: nat)
    requires d > 0
    ensures n % d != 0 ==> (n + (d - n % d)) % d == 0
  {
    DivUnique(n + (d - n % d), d, n / d + 1, 0);
  }

  /** The loop that takes as many rows as there are, until none remain to be added. */
  method Repeated<R, V>(p: Proto<R, V>, padSize: nat) returns (padded: Proto<R, V>)
    requires Consistent(p) && p.size > 0
    ensures padded.size == p.size + padSize && Cyclic(padded, p)
  {
    CyclicSelf(p);
    var protos := [p];
    var remaining := padSize;
    while remaining > 0
      invariant protos != [] && AllAlike(protos) && protos[0] == p && Cyclic(Concat(protos), p)
      invariant Concat(protos).size + remaining == p.size + padSize
      invariant remaining >= 0 && (remaining > 0 ==> Concat(protos).size % p.size == 0)
    {
      var take := if remaining < p.size then remaining else p.size;
      CyclicNext(Concat(protos), p, take);
      ConcatSnoc(protos, Slice(p, 0, take));
      if take == p.size { OneMore(Concat(protos).size, p.size); }
      protos := protos + [Slice(p, 0, take)];
      remaining := remaining - take;
    }
    padded := Concat(protos);
  }

  /** Padding ends, makes the size a multiple of the divisor, and repeats the rows from the first on. */
  method Pad<R, V>(p: Proto<R, V>, d: nat) returns (padded: Proto<R, V>, padSize: nat)
    requires Consistent(p) && d > 0
    ensures padded.size % d == 0 && padSize < d && padded.size == p.size + padSize && Cyclic(padded, p)
  {
    if p.size % d != 0 {
      padSize := d - p.size % d;
      assert p.size > 0 by { if p.size == 0 { DivUnique(0, d, 0, 0); } }
      PadFills(p.size, d);
      padded := Repeated(p, padSize);
    } else {
      padSize, padded := 0, p;
      CyclicSelf(p);
    }
  }

  lemma OneMore(x: nat, n: nat)
    requires n > 0 && x % n == 0
    ensures (x + n) % n == 0
  {
    DivUnique(x + n, n, x / n + 1, 0);
  }

  /** data[:-pad_size], unless the pad size is 0. */
  function Unpad<R, V>(p: Proto<R, V>, padSize: nat): Proto<R, V>
    requires Consistent(p)
  {
    if padSize == 0 then p else Slice(p, 0, if padSize <= p.size then p.size - padSize else 0)
  }

  /** Unpadding undoes padding. */
  lemma UnpadPadded<R, V>(p: Proto<R, V>, padded: Proto<R, V>, padSize: nat)
    requires Cyclic(padded, p) && padded.size == p.size + padSize
    ensures Unpad(padded, padSize) == p
  {
    var q := Unpad(padded, padSize);
    forall i | 0 <= i < p.size ensures SameRow(q, i, p, i) {
      assert SameRow(padded, i, p, i % p.size);
      DivUnique(i, p.size, 0, i);
    }
    SameRowsEqual(q, p);
  }

  lemma SameRowsEqual<R, V>(q: Proto<R, V>, p: Proto<R, V>)
    requires Consistent(q) && Consistent(p) && Alike(p, q) && q.size == p.size
    requires forall i :: 0 <= i < p.size ==> SameRow(q, i, p, i)
    ensures q == p
  {
    if p.batch.Some? {
      forall i | 0 <= i < p.size ensures q.batch.value[i] == p.batch.value[i] { assert SameRow(q, i, p, i); }
      assert q.batch.value == p.batch.value;
    }
    forall k | k in p.columns ensures q.columns[k] == p.columns[k] {
      forall i | 0 <= i < p.size ensures q.columns[k][i] == p.columns[k][i] { assert SameRow(q, i, p, i); }
    }
    assert q.columns == p.columns;
  }

  // ---------------------------------------------------------------- chunks

  function Lengths<T>(pieces: seq<seq<T>>): seq<nat> {
    seq(|pieces|, i requires 0 <= i < |pieces| => |pieces[i]|)
  }

  /** numpy.array_split at the running sums of the sizes. */
  function SplitAt<T>(t: seq<T>, sizes: seq<nat>): (pieces: seq<seq<T>>)
    requires |t| == Total(sizes)
    ensures |pieces| == |sizes|
  {
    if sizes == [] then [] else [t[..sizes[0]]] + SplitAt(t[sizes[0]..], sizes[1..])
  }

  /** The rows of p in consecutive parts of the given sizes. */
  function Parts<R, V>(p: Proto<R, V>, sizes: seq<nat>): (ps: seq<Proto<R, V>>)
    requires Consistent(p) && Total(sizes) <= p.size
    ensures |ps| == |sizes|
  {
    if sizes == [] then []
    else
      var n := |sizes| - 1;
      SizesSnoc(sizes);
      Parts(p, sizes[..n]) + [Slice(p, Total(sizes[..n]), Total(sizes))]
  }

  lemma SizesSnoc(sizes: seq<nat>)
    requires sizes != []
    ensures var n := |sizes| - 1; Total(sizes) == Total(sizes[..n]) + sizes[n]
  {
    var n := |sizes| - 1;
    assert sizes == sizes[..n] + [sizes[n]];
    TotalSnoc(sizes[..n], sizes[n]);
  }

  lemma SliceAppend<R, V>(p: Proto<R, V>, a: nat, b: nat)
    requires Consistent(p) && a <= b <= p.size
    ensures Append(Slice(p, 0, a), Slice(p, a, b)) == Slice(p, 0, b)
  {
    var q, r := Append(Slice(p, 0, a), Slice(p, a, b)), Slice(p, 0, b);
    forall i | 0 <= i < b ensures SameRow(q, i, r, i) {
    }
    SameRowsEqual(q, r);
  }

  /** Consecutive parts put together again. */
  lemma {:induction false} ConcatParts<R, V>(p: Proto<R, V>, sizes: seq<nat>)
    requires Consistent(p) && sizes != [] && Total(sizes) <= p.size
    ensures AllAlike(Parts(p, sizes)) && Concat(Parts(p, sizes)) == Slice(p, 0, Total(sizes))
    decreases |sizes|
  {
    var n := |sizes| - 1;
    SizesSnoc(sizes);
    if n > 0 {
      ConcatParts(p, sizes[..n]);
      SliceAppend(p, Total(sizes[..n]), Total(sizes));
      ConcatSnoc(Parts(p, sizes[..n]), Slice(p, Total(sizes[..n]), Total(sizes)));
    } else {
      assert Total(sizes[..n]) == 0;
    }
  }

  // ---------------------------------------------------------------- DataProto.chunk

  /** The sizes that all columns are cut to: those of the tensor chunks or, without tensors, of array_split. */
  function ChunkSizes<R, V>(p: Proto<R, V>, c: nat): seq<nat>
    requires c > 0
  {
    if p.batch.Some? then Lengths(Chunk(p.batch.value, c)) else seq(c, i requires 0 <= i < c => SectionSize(p.size, c, i))
  }

  function CutColumn<R, V>(p: Proto<R, V>, c: nat, column: seq<V>): seq<seq<V>>
    requires c > 0 && (p.batch.Some? ==> |column| == Total(ChunkSizes(p, c)))
  {
    if p.batch.Some? then SplitAt(column, ChunkSizes(p, c)) else ArraySplit(column, c)
  }

  lemma {:induction false} TotalLengths<T>(pieces: seq<seq<T>>)
    ensures Total(Lengths(pieces)) == |Flatten(pieces)|
  {
    if pieces != [] {
      assert Lengths(pieces)[1..] == Lengths(pieces[1..]);
      TotalLengths(pieces[1..]);
    }
  }

  /** Without tensors every column is cut like any other sequence of that length. */
  lemma SectionLengths<T>(t: seq<T>, c: nat)
    requires c > 0
    ensures Lengths(ArraySplit(t, c)) == seq(c, i requires 0 <= i < c => SectionSize(|t|, c, i))
    ensures Flatten(ArraySplit(t, c)) == t
  {
    SplitIsPartition(t, c);
    forall i | 0 <= i < c ensures |ArraySplit(t, c)[i]| == SectionSize(|t|, c, i) { SplitSizes(t, c, i); }
  }

  lemma ChunkTotal<R, V>(p: Proto<R, V>, c: nat)
    requires Consistent(p) && c > 0
    ensures Total(ChunkSizes(p, c)) == p.size
  {
    if p.batch.Some? {
      TotalLengths(Chunk(p.batch.value, c));
      FlattenChunk(p.batch.value, c);
    } else {
      var rows := seq(p.size, _ => 0);
      SectionLengths(rows, c);
      TotalLengths(ArraySplit(rows, c));
    }
  }

  /** Pieces that make up t are t cut at their lengths. */
  lemma {:induction false} SplitAtLengths<T>(t: seq<T>, pieces: seq<seq<T>>)
    requires Flatten(pieces) == t
    ensures |t| == Total(Lengths(pieces)) && SplitAt(t, Lengths(pieces)) == pieces
  {
    TotalLengths(pieces);
    if pieces != [] {
      assert Lengths(pieces)[1..] == Lengths(pieces[1..]);
      assert t[..|pieces[0]|] == pieces[0] && t[|pieces[0]|..] == Flatten(pieces[1..]);
      SplitAtLengths(t[|pieces[0]|..], pieces[1..]);
    }
  }

  /** All columns are cut at the same places. */
  lemma CutIsSplit<R, V>(p: Proto<R, V>, c: nat, column: seq<V>)
    requires Consistent(p) && c > 0 && |column| == p.size
    ensures Total(ChunkSizes(p, c)) == p.size && CutColumn(p, c, column) == SplitAt(column, ChunkSizes(p, c))
  {
    ChunkTotal(p, c);
    if p.batch.None? {
      SectionLengths(column, c);
      SplitAtLengths(column, ArraySplit(column, c));
    }
  }

  lemma {:induction false} SplitAtIs<T>(t: seq<T>, sizes: seq<nat>, i: nat)
    requires |t| == Total(sizes) && i < |sizes|
    ensures Total(sizes[..i]) <= Total(sizes[..i + 1]) <= |t|
    ensures SplitAt(t, sizes)[i] == t[Total(sizes[..i])..Total(sizes[..i + 1])]
  {
    TotalAt(sizes, i);
    if i > 0 {
      assert sizes[..i][1..] == sizes[1..][..i - 1] && sizes[..i + 1][1..] == sizes[1..][..i];
      SplitAtIs(t[sizes[0]..], sizes[1..], i - 1);
    } else {
      assert sizes[..1][1..] == [];
    }
  }

  lemma {:induction false} PartsAt<R, V>(p: Proto<R, V>, sizes: seq<nat>, i: nat)
    requires Consistent(p) && Total(sizes) <= p.size && i < |sizes|
    ensures Total(sizes[..i]) <= Total(sizes[..i + 1]) <= p.size
    ensures Parts(p, sizes)[i] == Slice(p, Total(sizes[..i]), Total(sizes[..i + 1]))
    decreases |sizes|
  {
    var n := |sizes| - 1;
    SizesSnoc(sizes);
    if i < n {
      PartsAt(p, sizes[..n], i);
      assert sizes[..n][..i] == sizes[..i] && sizes[..n][..i + 1] == sizes[..i + 1];
    } else {
      assert sizes[..n + 1] == sizes;
    }
  }

  function ChunkAt<R, V>(p: Proto<R, V>, c: nat, i: nat): Proto<R, V>
    requires Consistent(p) && c > 0 && i < |ChunkSizes(p, c)|
  {
    ChunkTotal(p, c);
    Proto(ChunkSizes(p, c)[i], if p.batch.Some? then Some(Chunk(p.batch.value, c)[i]) else None,
          map k | k in p.columns :: CutIsSplit(p, c, p.columns[k]); CutColumn(p, c, p.columns[k])[i])
  }

  /** DataProto.chunk. */
  function ChunkProto<R, V>(p: Proto<R, V>, c: nat, padding: bool): Result<seq<Proto<R, V>>>
    requires Consistent(p) && c > 0
  {
    ChunkTotal(p, c);
    if !padding && p.size % c != 0 then Raise(AssertionError)
    else if exists k :: k in p.columns && |CutColumn(p, c, p.columns[k])| != c then Raise(AssertionError)
    else if |ChunkSizes(p, c)| != c then Raise(IndexError)
    else Ok(seq(c, i requires 0 <= i < c => ChunkAt(p, c, i)))
  }

  lemma CutAt<R, V>(p: Proto<R, V>, c: nat, column: seq<V>, i: nat)
    requires Consistent(p) && c > 0 && |column| == p.size == Total(ChunkSizes(p, c)) && i < |ChunkSizes(p, c)|
    ensures var sizes := ChunkSizes(p, c);
            Total(sizes[..i]) <= Total(sizes[..i + 1]) <= p.size && i < |CutColumn(p, c, column)| &&
            CutColumn(p, c, column)[i] == column[Total(sizes[..i])..Total(sizes[..i + 1])]
  {
    CutIsSplit(p, c, column);
    SplitAtIs(column, ChunkSizes(p, c), i);
  }

  lemma BatchAt<R, V>(p: Proto<R, V>, c: nat, i: nat)
    requires Consistent(p) && c > 0 && p.batch.Some? && i < |ChunkSizes(p, c)|
    ensures var sizes := ChunkSizes(p, c);
            Total(sizes[..i]) <= Total(sizes[..i + 1]) <= p.size &&
            Chunk(p.batch.value, c)[i] == p.batch.value[Total(sizes[..i])..Total(sizes[..i + 1])]
  {
    FlattenChunk(p.batch.value, c);
    SplitAtLengths(p.batch.value, Chunk(p.batch.value, c));
    SplitAtIs(p.batch.value, ChunkSizes(p, c), i);
  }

  lemma ChunkIsSlice<R, V>(p: Proto<R, V>, c: nat, i: nat, a: nat, b: nat)
    requires Consistent(p) && c > 0 && i < |ChunkSizes(p, c)| && a <= b <= p.size && ChunkSizes(p, c)[i] == b - a
    requires p.batch.Some? ==> Chunk(p.batch.value, c)[i] == p.batch.value[a..b]
    requires forall k :: k in p.columns ==>
      |p.columns[k]| == Total(ChunkSizes(p, c)) && i < |CutColumn(p, c, p.columns[k])| && CutColumn(p, c, p.columns[k])[i] == p.columns[k][a..b]
    ensures ChunkAt(p, c, i) == Slice(p, a, b)
  {
    assert ChunkAt(p, c, i).columns == Slice(p, a, b).columns;
  }

  lemma ChunkIsPart<R, V>(p: Proto<R, V>, c: nat, i: nat)
    requires Consistent(p) && c > 0 && i < |ChunkSizes(p, c)|
    ensures Total(ChunkSizes(p, c)) == p.size && ChunkAt(p, c, i) == Parts(p, ChunkSizes(p, c))[i]
  {
    var sizes := ChunkSizes(p, c);
    ChunkTotal(p, c);
    PartsAt(p, sizes, i);
    TotalAt(sizes, i);
    if p.batch.Some? { BatchAt(p, c, i); }
    forall k | k in p.columns
      ensures i < |CutColumn(p, c, p.columns[k])| &&
              CutColumn(p, c, p.columns[k])[i] == p.columns[k][Total(sizes[..i])..Total(sizes[..i + 1])]
    {
      CutAt(p, c, p.columns[k], i);
    }
    ChunkIsSlice(p, c, i, Total(sizes[..i]), Total(sizes[..i + 1]));
  }

  lemma SizesFill<R, V>(p: Proto<R, V>, c: nat)
    requires Consistent(p) && c > 0
    ensures |ChunkSizes(p, c)| == c <==> p.batch.None? || Fills(p.size, c)
  {
    if p.batch.Some? { ChunkCount(p.batch.value, c); }
  }

  /** Chunking raises exactly when the batch does not divide evenly and is not meant to be padded, or it has tensors
      whose rows, in chunks of the rounded-up size, do not give as many chunks as asked for. Otherwise every chunk
      holds the same rows in all columns, and the chunks put together are the batch. */
  lemma ChunksConcat<R, V>(p: Proto<R, V>, c: nat, padding: bool)
    requires Consistent(p) && c > 0
    ensures var r := ChunkProto(p, c, padding);
            (r.Ok? <==> (padding || p.size % c == 0) && (p.batch.None? || Fills(p.size, c))) &&
            (r.Ok? ==> Total(ChunkSizes(p, c)) == p.size && r.value == Parts(p, ChunkSizes(p, c)) &&
                       AllAlike(r.value) && |r.value| == c && Concat(r.value) == p)
  {
    var sizes := ChunkSizes(p, c);
    ChunkTotal(p, c);
    SizesFill(p, c);
    forall k | k in p.columns ensures |CutColumn(p, c, p.columns[k])| == |sizes| { CutIsSplit(p, c, p.columns[k]); }
    if |sizes| == c {
      ChunksAreParts(p, c);
      ConcatParts(p, sizes);
      WholeSlice(p);
    }
  }

  /** With padding enabled: five rows in four chunks raise, though four chunks of at most two rows would do. */
  lemma FiveInFour<R, V>(p: Proto<R, V>)
    requires Consistent(p) && p.size == 5 && p.batch.Some?
    ensures ChunkProto(p, 4, true).Raise?
  {
    assert CeilDiv(5, 4) == 2 && CeilDiv(5, 2) == 3;
    ChunksConcat(p, 4, true);
  }

  lemma ChunksAreParts<R, V>(p: Proto<R, V>, c: nat)
    requires Consistent(p) && c > 0 && |ChunkSizes(p, c)| == c
    ensures Total(ChunkSizes(p, c)) == p.size
    ensures seq(c, i requires 0 <= i < c => ChunkAt(p, c, i)) == Parts(p, ChunkSizes(p, c))
  {
    ChunkTotal(p, c);
    forall i | 0 <= i < c ensures ChunkAt(p, c, i) == Parts(p, ChunkSizes(p, c))[i] { ChunkIsPart(p, c, i); }
  }

  lemma WholeSlice<R, V>(p: Proto<R, V>)
    requires Consistent(p)
    ensures Slice(p, 0, p.size) == p
  {
    var q := Slice(p, 0, p.size);
    forall i | 0 <= i < p.size ensures SameRow(q, i, p, i) {
    }
    SameRowsEqual(q, p);
  }

  lemma EvenSizes<R, V>(p: Proto<R, V>, c: nat)
    requires Consistent(p) && c > 0 && p.size % c == 0
    ensures |ChunkSizes(p, c)| == c && forall i :: 0 <= i < c ==> ChunkSizes(p, c)[i] == p.size / c
  {
    if p.batch.Some? {
      DivParts(p.size, c);
      ExactChunk(p.batch.value, p.size / c, c);
    }
  }

  lemma {:induction false} TotalSame(sizes: seq<nat>, n: nat)
    requires forall i :: 0 <= i < |sizes| ==> sizes[i] == n
    ensures Total(sizes) == |sizes| * n
  {
    if sizes != [] {
      TotalSame(sizes[1..], n);
      Distributive(|sizes| - 1, 1, n);
    }
  }

  /** An even division never fails, with tensors or without, and chunk i is the i-th run of size / c rows. */
  lemma EvenChunks<R, V>(p: Proto<R, V>, c: nat, padding: bool, i: nat)
    requires Consistent(p) && c > 0 && p.size % c == 0 && i < c
    ensures var r := ChunkProto(p, c, padding);
            r.Ok? && |r.value| == c && i * (p.size / c) + p.size / c <= p.size &&
            r.value[i] == Slice(p, i * (p.size / c), i * (p.size / c) + p.size / c)
  {
    var sizes, n := ChunkSizes(p, c), p.size / c;
    EvenSizes(p, c);
    SizesFill(p, c);
    ChunksConcat(p, c, padding);
    PartsAt(p, sizes, i);
    TotalSame(sizes[..i], n);
    TotalAt(sizes, i);
  }

  /** However it divides: with tensors all chunks but the last have the same number of rows, and the last one has at least
      one and no more than the others; without, no chunk has more rows than an earlier one, or two more than a later one. */
  lemma ChunkRows<R, V>(p: Proto<R, V>, c: nat, i: nat, j: nat)
    requires Consistent(p) && c > 0 && p.size > 0 && i <= j < |ChunkSizes(p, c)|
    ensures var sizes := ChunkSizes(p, c);
            if p.batch.Some? then 0 < sizes[j] <= sizes[i] && (j < |sizes| - 1 ==> sizes[j] == sizes[i])
            else sizes[j] <= sizes[i] <= sizes[j] + 1
  {
    if p.batch.Some? {
      ChunkSizesAre(p.batch.value, c, i);
      ChunkSizesAre(p.batch.value, c, j);
    } else {
      var rows := seq(p.size, _ => 0);
      SectionLengths(rows, c);
      SplitIsEven(rows, c, i, j);
    }
  }

  // ---------------------------------------------------------------- futures

  /** A DataProtoFuture: the parts that other workers will give, and which chunk of the whole is meant. */
  datatype Future<R, V> = Future(parts: seq<Proto<R, V>>, dispatch: Option<(nat, nat)>)

  function ChunkFuture<R, V>(f: Future<R, V>, c: nat): seq<Future<R, V>> {
    seq(c, i requires 0 <= i < c => f.(dispatch := Some((i, c))))
  }

  function Get<R, V>(f: Future<R, V>): Result<Proto<R, V>>
    requires f.parts != [] && AllAlike(f.parts)
  {
    if f.dispatch.None? then Ok(Concat(f.parts))
    else
      var (i, c) := f.dispatch.value;
      if c == 0 then Raise(ValueError)
      else match ChunkProto(Concat(f.parts), c, false)
        case Raise(error) => Raise(error)
        case Ok(chunks) => if i < |chunks| then Ok(chunks[i]) else Raise(IndexError)
  }

  /** What the chunks of a future give, put together, is what the future itself gives; if its size does not divide
      evenly, none of them gives anything. */
  lemma FutureChunks<R, V>(parts: seq<Proto<R, V>>, c: nat, got: seq<Proto<R, V>>)
    requires parts != [] && AllAlike(parts) && c > 0 && |got| == c
    requires Concat(parts).size % c == 0 ==>
      forall i :: 0 <= i < c ==> Get(ChunkFuture(Future(parts, None), c)[i]) == Ok(got[i])
    ensures Concat(parts).size % c == 0 ==> AllAlike(got) && Ok(Concat(got)) == Get(Future(parts, None))
    ensures forall i :: 0 <= i < c ==>
      (Get(ChunkFuture(Future(parts, None), c)[i]).Ok? <==> Concat(parts).size % c == 0)
  {
    var p := Concat(parts);
    ChunksConcat(p, c, false);
    if p.size % c == 0 {
      EvenSizes(p, c);
      SizesFill(p, c);
      assert got == ChunkProto(p, c, false).value by {
        forall i | 0 <= i < c ensures got[i] == ChunkProto(p, c, false).value[i] {
          assert Get(ChunkFuture(Future(parts, None), c)[i]) == Ok(got[i]);
        }
      }
    }
  }
}
