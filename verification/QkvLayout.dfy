/** Query, key and value weights fused for Megatron (scripts/converter_hf_to_mcore.py) and taken apart again
    (verl/model_merger/megatron_model_merger.py, scripts/legacy_model_merger.py). A tensor is the sequence of its rows. */
module QkvLayout {
  import opened Arithmetic
  import opened Outcomes
  import opened Sequences
  import opened TensorOps

  // ---------------------------------------------------------------- fusing

  /** The rows of query, key and value weights. */
  datatype Qkv<T> = Qkv(q: seq<T>, k: seq<T>, v: seq<T>)

  /** `groups` key-value heads of `d` rows, with `a` rows of query heads each. */
  ghost predicate Shaped<T>(x: Qkv<T>, groups: nat, a: nat, d: nat) {
    |x.q| == groups * a && |x.k| == groups * d && |x.v| == groups * d
  }

  function Joined<T>(qs: seq<seq<T>>, ks: seq<seq<T>>, vs: seq<seq<T>>): seq<seq<T>>
    requires |qs| == |ks| == |vs|
  {
    seq(|qs|, g requires 0 <= g < |qs| => qs[g] + ks[g] + vs[g])
  }

  /** The queries, the keys and the values of a group follow each other, group after group. */
  function Fuse<T>(x: Qkv<T>, groups: nat, a: nat, d: nat): seq<T>
    requires Shaped(x, groups, a, d)
  {
    Flatten(Joined(Rows(x.q, a, groups), Rows(x.k, d, groups), Rows(x.v, d, groups)))
  }

  // ---------------------------------------------------------------- splitting

  function Slices<T>(chunks: seq<seq<T>>, i: nat, j: nat): seq<seq<T>>
    requires i <= j && forall c :: 0 <= c < |chunks| ==> j <= |chunks[c]|
  {
    seq(|chunks|, c requires 0 <= c < |chunks| => chunks[c][i..j])
  }

  /** Each chunk split into `a`, `b` and `b` rows. */
  function Lists<T>(chunks: seq<seq<T>>, a: nat, b: nat): Qkv<seq<T>>
    requires Even(chunks, a + b + b)
  {
    Qkv(Slices(chunks, 0, a), Slices(chunks, a, a + b), Slices(chunks, a + b, a + b + b))
  }

  function Concatenated<T>(lists: Qkv<seq<T>>): Qkv<T> {
    Qkv(Flatten(lists.q), Flatten(lists.k), Flatten(lists.v))
  }

  function Parted<T>(chunks: seq<seq<T>>, a: nat, b: nat): Qkv<T>
    requires Even(chunks, a + b + b)
  {
    Concatenated(Lists(chunks, a, b))
  }

  /** What a fused tensor of `groups` groups is split into. */
  function Split<T>(t: seq<T>, groups: nat, a: nat, d: nat): Qkv<T>
    requires |t| == groups * (a + d + d)
  {
    Parted(Rows(t, a + d + d, groups), a, d)
  }

  lemma JoinedEven<T>(qs: seq<seq<T>>, ks: seq<seq<T>>, vs: seq<seq<T>>, a: nat, b: nat)
    requires |qs| == |ks| == |vs| && Even(qs, a) && Even(ks, b) && Even(vs, b)
    ensures var gs := Joined(qs, ks, vs);
            Even(gs, a + b + b) && Lists(gs, a, b) == Qkv(qs, ks, vs)
  {
    var gs := Joined(qs, ks, vs);
    forall g | 0 <= g < |gs|
      ensures |gs[g]| == a + b + b && gs[g][0..a] == qs[g] && gs[g][a..a + b] == ks[g] && gs[g][a + b..a + b + b] == vs[g]
    {
      ThreeParts(qs[g], ks[g], vs[g]);
    }
  }

  lemma ThreeParts<T>(x: seq<T>, y: seq<T>, z: seq<T>)
    ensures var t := x + y + z;
            t[0..|x|] == x && t[|x|..|x| + |y|] == y && t[|x| + |y|..|x| + |y| + |z|] == z
  {
  }

  lemma JoinedSlices<T>(chunks: seq<seq<T>>, a: nat, b: nat)
    requires Even(chunks, a + b + b)
    ensures Joined(Slices(chunks, 0, a), Slices(chunks, a, a + b), Slices(chunks, a + b, a + b + b)) == chunks
  {
    forall g | 0 <= g < |chunks|
      ensures chunks[g][0..a] + chunks[g][a..a + b] + chunks[g][a + b..a + b + b] == chunks[g]
    {
    }
  }

  /** Splitting undoes fusing. */
  lemma SplitFused<T>(x: Qkv<T>, groups: nat, a: nat, d: nat)
    requires Shaped(x, groups, a, d)
    ensures |Fuse(x, groups, a, d)| == groups * (a + d + d) && Split(Fuse(x, groups, a, d), groups, a, d) == x
  {
    var qs, ks, vs := Rows(x.q, a, groups), Rows(x.k, d, groups), Rows(x.v, d, groups);
    var gs := Joined(qs, ks, vs);
    JoinedEven(qs, ks, vs, a, d);
    RowsFlatten(gs, a + d + d);
    assert Split(Flatten(gs), groups, a, d) == Concatenated(Qkv(qs, ks, vs));
    FlattenRows(x.q, a, groups);
    FlattenRows(x.k, d, groups);
    FlattenRows(x.v, d, groups);
  }

  /** Fusing undoes splitting. */
  lemma FuseSplit<T>(t: seq<T>, groups: nat, a: nat, d: nat)
    requires |t| == groups * (a + d + d)
    ensures Shaped(Split(t, groups, a, d), groups, a, d) && Fuse(Split(t, groups, a, d), groups, a, d) == t
  {
    var chunks := Rows(t, a + d + d, groups);
    PartsEven(chunks, a, d);
    RowsFlatten(Slices(chunks, 0, a), a);
    RowsFlatten(Slices(chunks, a, a + d), d);
    RowsFlatten(Slices(chunks, a + d, a + d + d), d);
    JoinedSlices(chunks, a, d);
    FlattenRows(t, a + d + d, groups);
  }

  lemma PartsEven<T>(chunks: seq<seq<T>>, a: nat, b: nat)
    requires Even(chunks, a + b + b)
    ensures Even(Slices(chunks, 0, a), a) && Even(Slices(chunks, a, a + b), b) && Even(Slices(chunks, a + b, a + b + b), b)
  {
  }

  // ---------------------------------------------------------------- the layout, row by row

  /** Group g of the fused tensor holds the queries of group g, then its keys, then its values. */
  lemma FusedAt<T>(x: Qkv<T>, groups: nat, a: nat, d: nat, g: nat, r: nat)
    requires Shaped(x, groups, a, d) && g < groups && r < a + d + d
    ensures var at := g * (a + d + d) + r;
            at < |Fuse(x, groups, a, d)| &&
            if r < a then g * a + r < |x.q| && Fuse(x, groups, a, d)[at] == x.q[g * a + r]
            else if r < a + d then g * d + (r - a) < |x.k| && Fuse(x, groups, a, d)[at] == x.k[g * d + (r - a)]
            else g * d + (r - a - d) < |x.v| && Fuse(x, groups, a, d)[at] == x.v[g * d + (r - a - d)]
  {
    GroupAt(x, groups, a, d, g, r);
    if r < a { RowsAt(x.q, a, groups, g, r); }
    else if r < a + d { RowsAt(x.k, d, groups, g, r - a); }
    else { RowsAt(x.v, d, groups, g, r - a - d); }
  }

  lemma GroupAt<T>(x: Qkv<T>, groups: nat, a: nat, d: nat, g: nat, r: nat)
    requires Shaped(x, groups, a, d) && g < groups && r < a + d + d
    ensures var at := g * (a + d + d) + r;
            at < |Fuse(x, groups, a, d)| &&
            Fuse(x, groups, a, d)[at] == (Rows(x.q, a, groups)[g] + Rows(x.k, d, groups)[g] + Rows(x.v, d, groups)[g])[r]
  {
    var gs := Joined(Rows(x.q, a, groups), Rows(x.k, d, groups), Rows(x.v, d, groups));
    RowsFlatten(gs, a + d + d);
    RowsAt(Flatten(gs), a + d + d, groups, g, r);
  }

  // ---------------------------------------------------------------- the mergers

  /** chunk.split([a, b, c]): the sizes must add up to the rows there are. */
  method SplitChunk<T>(chunk: seq<T>, a: nat, b: nat, c: nat) returns (r: Result<Qkv<T>>)
    ensures r.Ok? <==> a + b + c == |chunk|
    ensures r.Ok? ==> r.value == Qkv(chunk[..a], chunk[a..a + b], chunk[a + b..])
    ensures r.Raise? ==> r.error == ShapeMismatch
  {
    if a + b + c != |chunk| { return Raise(ShapeMismatch); }
    return Ok(Qkv(chunk[..a], chunk[a..a + b], chunk[a + b..]));
  }

  function Plus<T>(x: Qkv<T>, y: Qkv<T>): Qkv<T> {
    Qkv(x.q + y.q, x.k + y.k, x.v + y.v)
  }

  lemma ListsAppend<T>(x: seq<seq<T>>, y: seq<seq<T>>, a: nat, b: nat)
    requires Even(x, a + b + b) && Even(y, a + b + b)
    ensures Even(x + y, a + b + b) && Lists(x + y, a, b) == Plus(Lists(x, a, b), Lists(y, a, b))
  {
  }

  lemma PlusAgain<T>(x: Qkv<T>, y: Qkv<T>, z: Qkv<T>)
    ensures Plus(x, Plus(y, z)) == Plus(Plus(x, y), z)
    ensures Plus(Qkv([], [], []), x) == x
  {
  }

  /** Appends the parts of every chunk of one tensor to the lists. */
  method SplitChunks<T>(chunks: seq<seq<T>>, a: nat, b: nat, lists: Qkv<seq<T>>) returns (r: Result<Qkv<seq<T>>>)
    ensures r.Ok? <==> Even(chunks, a + b + b)
    ensures r.Ok? ==> r.value == Plus(lists, Lists(chunks, a, b))
    ensures r.Raise? ==> r.error == ShapeMismatch
  {
    var qs, ks, vs := lists.q, lists.k, lists.v;
    for c := 0 to |chunks|
      invariant Even(chunks[..c], a + b + b)
      invariant Qkv(qs, ks, vs) == Plus(lists, Lists(chunks[..c], a, b))
    {
      var parts := SplitChunk(chunks[c], a, b, b);
      if parts.Raise? { return Raise(parts.error); }
      assert chunks[..c + 1] == chunks[..c] + [chunks[c]] && chunks[c][a + b..] == chunks[c][a + b..a + b + b];
      ListsAppend(chunks[..c], [chunks[c]], a, b);
      qs, ks, vs := qs + [parts.value.q], ks + [parts.value.k], vs + [parts.value.v];
    }
    assert chunks[..|chunks|] == chunks;
    return Ok(Qkv(qs, ks, vs));
  }

  /** The tensor can be split: a whole number of rows per query, key and value head, the same for every group. */
  predicate Splittable(rows: nat, heads: nat, kvHeads: nat, groups: nat)
    requires kvHeads > 0 && groups > 0
  {
    heads % kvHeads == 0 && rows % (heads / kvHeads + 2) == 0 && rows / (heads / kvHeads + 2) % groups == 0
  }

  /** The rows of queries and of keys that the mergers expect of every chunk. */
  function QueryRows(rows: nat, n: nat, groups: nat): nat
    requires groups > 0
  {
    Div(Div(rows, n + 2) * n, groups)
  }

  function KeyRows(rows: nat, n: nat, groups: nat): nat
    requires groups > 0
  {
    Div(Div(rows, n + 2), groups)
  }

  lemma WholeGroups<T>(t: seq<T>, n: nat, groups: nat, d: nat)
    requires groups > 0 && |t| == groups * (n * d + d + d)
    ensures |t| / (n + 2) == groups * d && |t| % (n + 2) == 0
    ensures QueryRows(|t|, n, groups) == n * d && KeyRows(|t|, n, groups) == d
    ensures Chunk(t, groups) == Rows(t, n * d + d + d, groups)
  {
    assert n * d + d + d == (n + 2) * d;
    assert |t| == (n + 2) * (groups * d);
    DivUnique(|t|, n + 2, groups * d, 0);
    assert groups * d * n == groups * (n * d);
    DivUnique(groups * d * n, groups, n * d, 0);
    DivUnique(groups * d, groups, d, 0);
    ExactChunk(t, n * d + d + d, groups);
  }

  lemma SizesTooSmall(rows: nat, n: nat, groups: nat)
    requires groups > 0 && rows % (n + 2) == 0 && rows / (n + 2) % groups != 0
    ensures groups * (QueryRows(rows, n, groups) + 2 * KeyRows(rows, n, groups)) < rows
  {
    var s := Div(rows, n + 2);
    var a, b := QueryRows(rows, n, groups), KeyRows(rows, n, groups);
    DivParts(rows, n + 2);
    DivParts(s * n, groups);
    DivParts(s, groups);
    Distributive(n, 2, s);
    Distributive(a, 2 * b, groups);
    Associative(2, b, groups);
  }

  /** Otherwise the first chunk has more rows than the split sizes account for. */
  lemma RaggedGroups<T>(t: seq<T>, n: nat, groups: nat)
    requires groups > 0 && |t| % (n + 2) == 0 && |t| / (n + 2) % groups != 0
    ensures !Even(Chunk(t, groups), QueryRows(|t|, n, groups) + 2 * KeyRows(|t|, n, groups))
  {
    var size := QueryRows(|t|, n, groups) + 2 * KeyRows(|t|, n, groups);
    SizesTooSmall(|t|, n, groups);
    FirstChunk(t, groups);
    SmallerFactor(groups, size, |Chunk(t, groups)[0]|);
  }

  lemma FirstChunk<T>(t: seq<T>, n: nat)
    requires n > 0 && t != []
    ensures |Chunk(t, n)| > 0 && n * |Chunk(t, n)[0]| >= |t|
  {
    var c := CeilDiv(|t|, n);
    assert n * c >= |t|;
    Times(1, n, |t|);
  }

  lemma SplittableIff<T>(t: seq<T>, n: nat, groups: nat)
    requires groups > 0 && |t| % (n + 2) == 0
    ensures var a, b := QueryRows(|t|, n, groups), KeyRows(|t|, n, groups);
            |t| / (n + 2) % groups == 0 <==> Even(Chunk(t, groups), a + b + b)
    ensures |t| / (n + 2) % groups == 0 ==>
      var d := KeyRows(|t|, n, groups);
      |t| == groups * (n * d + d + d) && QueryRows(|t|, n, groups) == n * d && Chunk(t, groups) == Rows(t, n * d + d + d, groups)
  {
    if |t| / (n + 2) % groups == 0 {
      var s := |t| / (n + 2);
      var d := s / groups;
      assert s == groups * d && |t| == s * (n + 2);
      assert groups * d * (n + 2) == groups * (n * d + d + d);
      WholeGroups(t, n, groups, d);
    } else {
      RaggedGroups(t, n, groups);
    }
  }

  /** _split_tensors on a fused weight. It succeeds exactly when the tensor consists of whole groups. */
  method SplitTensors<T>(t: seq<T>, heads: nat, kvHeads: nat) returns (r: Result<Qkv<T>>)
    requires kvHeads > 0
    ensures r.Ok? <==> Splittable(|t|, heads, kvHeads, kvHeads)
    ensures r.Ok? ==>
      var n, d := heads / kvHeads, |t| / (heads / kvHeads + 2) / kvHeads;
      |t| == kvHeads * (n * d + d + d) && r.value == Split(t, kvHeads, n * d, d)
    ensures r == Raise(AssertionError) <==> heads % kvHeads != 0 || |t| % (heads / kvHeads + 2) != 0
    ensures r.Raise? ==> r.error == AssertionError || r.error == ShapeMismatch
  {
    if heads % kvHeads != 0 { return Raise(AssertionError); }
    var n := heads / kvHeads;
    if |t| % (n + 2) != 0 { return Raise(AssertionError); }
    SplittableIff(t, n, kvHeads);
    var a, b := QueryRows(|t|, n, kvHeads), KeyRows(|t|, n, kvHeads);
    var lists := SplitChunks(Chunk(t, kvHeads), a, b, Qkv([], [], []));
    if lists.Raise? { return Raise(lists.error); }
    PlusAgain(Lists(Chunk(t, kvHeads), a, b), Qkv([], [], []), Qkv([], [], []));
    return Ok(Concatenated(lists.value));
  }

  function AllChunks<T>(ts: seq<seq<T>>, groups: nat): seq<seq<T>>
    requires groups > 0
  {
    if ts == [] then [] else Chunk(ts[0], groups) + AllChunks(ts[1..], groups)
  }

  lemma {:induction false} AllChunksSnoc<T>(ts: seq<seq<T>>, t: seq<T>, groups: nat)
    requires groups > 0
    ensures AllChunks(ts + [t], groups) == AllChunks(ts, groups) + Chunk(t, groups)
  {
    if ts == [] {
      assert (ts + [t])[1..] == [];
    } else {
      assert (ts + [t])[1..] == ts[1..] + [t];
      AllChunksSnoc(ts[1..], t, groups);
    }
  }

  lemma {:induction false} AllChunksOf<T>(ts: seq<seq<T>>, i: nat, groups: nat, size: nat)
    requires groups > 0 && i < |ts| && Even(AllChunks(ts, groups), size)
    ensures Even(Chunk(ts[i], groups), size)
  {
    var first, rest := Chunk(ts[0], groups), AllChunks(ts[1..], groups);
    assert forall c :: 0 <= c < |first| ==> first[c] == AllChunks(ts, groups)[c];
    assert forall c :: 0 <= c < |rest| ==> rest[c] == AllChunks(ts, groups)[|first| + c];
    if i > 0 { AllChunksOf(ts[1..], i - 1, groups, size); }
  }

  /** The rows of queries and of keys that the merger takes from every chunk, computed from the first slice. */
  function SliceQueryRows<T>(tpData: seq<seq<T>>, heads: nat, kvHeads: nat): nat
    requires kvHeads > 0 && tpData != [] && Div(kvHeads, |tpData|) > 0
  {
    QueryRows(|tpData[0]|, Div(heads, kvHeads), Div(kvHeads, |tpData|))
  }

  function SliceKeyRows<T>(tpData: seq<seq<T>>, heads: nat, kvHeads: nat): nat
    requires kvHeads > 0 && tpData != [] && Div(kvHeads, |tpData|) > 0
  {
    KeyRows(|tpData[0]|, Div(heads, kvHeads), Div(kvHeads, |tpData|))
  }

  /** The two assertions of the merger. */
  predicate HeadsFit<T>(tpData: seq<seq<T>>, heads: nat, kvHeads: nat)
    requires kvHeads > 0 && tpData != []
  {
    heads % kvHeads == 0 && |tpData[0]| % (Div(heads, kvHeads) + 2) == 0
  }

  /** No assertion fails, there is at least one group a slice, and every chunk has the rows that the sizes add up to. */
  ghost predicate CanMerge<T>(tpData: seq<seq<T>>, heads: nat, kvHeads: nat)
    requires kvHeads > 0 && tpData != []
  {
    HeadsFit(tpData, heads, kvHeads) && Div(kvHeads, |tpData|) > 0 &&
    var a, b := SliceQueryRows(tpData, heads, kvHeads), SliceKeyRows(tpData, heads, kvHeads);
    Even(AllChunks(tpData, Div(kvHeads, |tpData|)), a + b + b)
  }

  function MergedTp<T>(tpData: seq<seq<T>>, heads: nat, kvHeads: nat): Qkv<T>
    requires kvHeads > 0 && tpData != [] && CanMerge(tpData, heads, kvHeads)
  {
    Parted(AllChunks(tpData, Div(kvHeads, |tpData|)),
           SliceQueryRows(tpData, heads, kvHeads), SliceKeyRows(tpData, heads, kvHeads))
  }

  /** _merge_across_tp on the slices of a fused weight. */
  method MergeAcrossTp<T>(tpData: seq<seq<T>>, heads: nat, kvHeads: nat) returns (r: Result<Qkv<T>>)
    requires kvHeads > 0 && tpData != []
    ensures r.Ok? <==> CanMerge(tpData, heads, kvHeads)
    ensures r.Ok? ==> r.value == MergedTp(tpData, heads, kvHeads)
    ensures r == Raise(AssertionError) <==> heads % kvHeads != 0 || |tpData[0]| % (heads / kvHeads + 2) != 0
    ensures r.Raise? ==> r.error == AssertionError || r.error == ShapeMismatch
  {
    if heads % kvHeads != 0 { return Raise(AssertionError); }
    var n := Div(heads, kvHeads);
    if |tpData[0]| % (n + 2) != 0 { return Raise(AssertionError); }
    var groups := Div(kvHeads, |tpData|);
    if groups == 0 { return Raise(ShapeMismatch); }  // torch refuses to cut a tensor into 0 chunks
    var a, b := SliceQueryRows(tpData, heads, kvHeads), SliceKeyRows(tpData, heads, kvHeads);
    var lists := SplitSlices(tpData, groups, a, b);
    if lists.Raise? { return Raise(lists.error); }
    return Ok(Concatenated(lists.value));
  }

  method SplitSlices<T>(tpData: seq<seq<T>>, groups: nat, a: nat, b: nat) returns (r: Result<Qkv<seq<T>>>)
    requires groups > 0
    ensures r.Ok? <==> Even(AllChunks(tpData, groups), a + b + b)
    ensures r.Ok? ==> r.value == Lists(AllChunks(tpData, groups), a, b)
    ensures r.Raise? ==> r.error == ShapeMismatch
  {
    var lists: Qkv<seq<T>> := Qkv([], [], []);
    for i := 0 to |tpData|
      invariant Even(AllChunks(tpData[..i], groups), a + b + b)
      invariant lists == Lists(AllChunks(tpData[..i], groups), a, b)
    {
      assert tpData[..i + 1] == tpData[..i] + [tpData[i]];
      AllChunksSnoc(tpData[..i], tpData[i], groups);
      var more := SplitChunks(Chunk(tpData[i], groups), a, b, lists);
      if more.Raise? {
        if Even(AllChunks(tpData, groups), a + b + b) { AllChunksOf(tpData, i, groups, a + b + b); }
        return Raise(more.error);
      }
      ListsAppend(AllChunks(tpData[..i], groups), Chunk(tpData[i], groups), a, b);
      lists := more.value;
    }
    assert tpData[..|tpData|] == tpData;
    return Ok(lists);
  }

  // ---------------------------------------------------------------- tensor parallelism

  lemma {:induction false} RowsNest<T>(t: seq<T>, size: nat, m: nat, tp: nat)
    requires m > 0 && |t| == tp * (m * size)
    ensures |t| == (tp * m) * size && AllChunks(Rows(t, m * size, tp), m) == Rows(t, size, tp * m)
    decreases tp
  {
    Associative(tp, m, size);
    if tp > 0 {
      LessOne(tp, m * size);
      LessOne(tp, m);
      Associative(tp - 1, m, size);
      var head, tail := t[..m * size], t[m * size..];
      RowsNest(tail, size, m, tp - 1);
      ExactChunk(head, size, m);
      RowsAppend(head, tail, size, m, (tp - 1) * m);
      assert head + tail == t;
    }
  }

  /** With whole groups in every slice, merging the equal slices of a fused tensor is splitting the tensor itself. */
  lemma TpMergeIsSplit<T>(t: seq<T>, a: nat, d: nat, tp: nat, m: nat)
    requires m > 0 && |t| == tp * (m * (a + d + d)) == (tp * m) * (a + d + d)
    ensures var chunks := AllChunks(Rows(t, m * (a + d + d), tp), m);
            Even(chunks, a + d + d) && Parted(chunks, a, d) == Split(t, tp * m, a, d)
  {
    RowsNest(t, a + d + d, m, tp);
  }

  /** And the sizes that the merger computes from its first slice are those of whole groups. */
  lemma TpSizes(n: nat, d: nat, tp: nat, m: nat)
    requires tp > 0 && m > 0
    ensures var rows := m * (n * d + d + d);
            (tp * m) / tp == m && rows % (n + 2) == 0 && QueryRows(rows, n, m) == n * d && KeyRows(rows, n, m) == d
  {
    DivUnique(tp * m, tp, m, 0);
    WholeGroups(seq(m * (n * d + d + d), _ => 0), n, m, d);
  }

  /** The slices of a fused weight merge to the weights that were fused. */
  lemma TpMergeOfFused<T>(x: Qkv<T>, a: nat, d: nat, tp: nat, m: nat)
    requires m > 0 && Shaped(x, tp * m, a, d)
    ensures var t, rows := Fuse(x, tp * m, a, d), m * (a + d + d);
            |t| == tp * rows && Even(AllChunks(Rows(t, rows, tp), m), a + d + d) &&
            Parted(AllChunks(Rows(t, rows, tp), m), a, d) == x
  {
    SplitFused(x, tp * m, a, d);
    Associative(tp, m, a + d + d);
    TpMergeIsSplit(Fuse(x, tp * m, a, d), a, d, tp, m);
  }

  lemma SliceSizes<T>(slices: seq<seq<T>>, n: nat, d: nat, tp: nat, m: nat, kvHeads: nat)
    requires tp > 0 && m > 0 && kvHeads == tp * m && |slices| == tp && |slices[0]| == m * (n * d + d + d)
    ensures kvHeads > 0 && HeadsFit(slices, kvHeads * n, kvHeads) && Div(kvHeads, |slices|) == m
    ensures SliceQueryRows(slices, kvHeads * n, kvHeads) == n * d && SliceKeyRows(slices, kvHeads * n, kvHeads) == d
  {
    TpSizes(n, d, tp, m);
    LessOne(tp, m);
    DivUnique(kvHeads * n, kvHeads, n, 0);
  }

  /** A fused weight cut into equal slices for `tp` ranks: the merger succeeds and gives back the weights fused. */
  lemma MergeOfFused<T>(x: Qkv<T>, n: nat, d: nat, tp: nat, m: nat)
    requires tp > 0 && m > 0 && Shaped(x, tp * m, n * d, d)
    ensures var t, rows, kvHeads := Fuse(x, tp * m, n * d, d), m * (n * d + d + d), tp * m;
            kvHeads > 0 && |t| == tp * rows && CanMerge(Rows(t, rows, tp), kvHeads * n, kvHeads) &&
            MergedTp(Rows(t, rows, tp), kvHeads * n, kvHeads) == x
  {
    TpMergeOfFused(x, n * d, d, tp, m);
    var rows, kvHeads := m * (n * d + d + d), tp * m;
    var slices := Rows(Fuse(x, kvHeads, n * d, d), rows, tp);
    SliceSizes(slices, n, d, tp, m, kvHeads);
  }
}
