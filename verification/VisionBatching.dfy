/** The loops of batched vision encoding (streamopd/streaming/qwen3_5.py). */
module VisionBatching {
  import opened Sequences
  import opened VisionResult

  // ---------------------------------------------------------------- collecting

  /** What has been collected for the chunks so far: lists of tensors. */
  datatype Lists<E> = Lists(embeds: seq<seq<seq<E>>>, grids: seq<seq<seq<Grid>>>)

  /** The lists of every chunk, with as many embeddings as grids. */
  ghost predicate Sized<E>(lists: Lists<E>, chunks: nat) {
    |lists.embeds| == |lists.grids| == chunks && forall c :: 0 <= c < chunks ==> |lists.embeds[c]| == |lists.grids[c]|
  }

  function Appended<E>(lists: Lists<E>, c: nat, embeds: seq<E>, grids: seq<Grid>): Lists<E>
    requires c < |lists.embeds| && c < |lists.grids|
  {
    Lists(lists.embeds[c := lists.embeds[c] + [embeds]], lists.grids[c := lists.grids[c] + [grids]])
  }

  /** Chunk c has got this many more embeddings and grids. */
  ghost predicate Grew<E>(before: Lists<E>, lists: Lists<E>, c: nat, embeds: seq<E>, grids: seq<Grid>)
    requires c < |before.embeds| && c < |before.grids| && c < |lists.embeds| && c < |lists.grids|
  {
    Flatten(lists.embeds[c]) == Flatten(before.embeds[c]) + embeds && Flatten(lists.grids[c]) == Flatten(before.grids[c]) + grids
  }

  lemma GrewMore<E>(before: Lists<E>, lists: Lists<E>, c: nat, embeds: seq<E>, grids: seq<Grid>, more: seq<E>, moreGrids: seq<Grid>)
    requires c < |before.embeds| && c < |before.grids| && c < |lists.embeds| && c < |lists.grids|
    requires Grew(before, lists, c, embeds, grids)
    ensures Grew(before, Appended(lists, c, more, moreGrids), c, embeds + more, grids + moreGrids)
  {
    FlattenSnoc(lists.embeds[c], more);
    FlattenSnoc(lists.grids[c], moreGrids);
  }

  lemma GridsAppend<F, E>(enc: Encoder<F, E>, a: seq<F>, b: seq<F>)
    ensures Grids(enc, a + b) == Grids(enc, a) + Grids(enc, b)
  {
  }

  /** The lists after some frames of a batch have been cut off. */
  ghost predicate CutSoFar<F, E>(enc: Encoder<F, E>, before: Lists<E>, lists: Lists<E>, chunks: nat, pairs: seq<(nat, F)>, embeds: seq<E>)
    requires enc.area > 0 && TokenSum(enc, Frames(pairs)) == |embeds| && Sized(before, chunks)
  {
    Sized(lists, chunks) && forall c :: 0 <= c < chunks ==>
      Grew(before, lists, c, Cut(enc, pairs, embeds, c), Grids(enc, FramesOf(pairs, c)))
  }

  /** Cutting off one more frame. */
  lemma CutNext<F, E>(enc: Encoder<F, E>, before: Lists<E>, lists: Lists<E>, chunks: nat, pairs: seq<(nat, F)>, embeds: seq<E>,
                      p: (nat, F), piece: seq<E>)
    requires enc.area > 0 && TokenSum(enc, Frames(pairs)) == |embeds| && Sized(before, chunks)
    requires CutSoFar(enc, before, lists, chunks, pairs, embeds) && p.0 < chunks && |piece| == Tokens(enc, p.1)
    ensures TokenSum(enc, Frames(pairs + [p])) == |embeds + piece|
    ensures CutSoFar(enc, before, Appended(lists, p.0, piece, [enc.grid(p.1)]), chunks, pairs + [p], embeds + piece)
  {
    CutSnoc(enc, pairs, p, embeds, piece, p.0);
    var lists' := Appended(lists, p.0, piece, [enc.grid(p.1)]);
    forall c | 0 <= c < chunks
      ensures Grew(before, lists', c, Cut(enc, pairs + [p], embeds + piece, c), Grids(enc, FramesOf(pairs + [p], c)))
    {
      CutSnoc(enc, pairs, p, embeds, piece, c);
      if c == p.0 { GrewMore(before, lists, c, Cut(enc, pairs, embeds, c), Grids(enc, FramesOf(pairs, c)), piece, [enc.grid(p.1)]); }
    }
  }

  lemma CutSnoc<F, E>(enc: Encoder<F, E>, pairs: seq<(nat, F)>, p: (nat, F), embeds: seq<E>, piece: seq<E>, c: nat)
    requires enc.area > 0 && TokenSum(enc, Frames(pairs)) == |embeds| && |piece| == Tokens(enc, p.1)
    ensures TokenSum(enc, Frames(pairs + [p])) == |embeds + piece|
    ensures Cut(enc, pairs + [p], embeds + piece, c) == Cut(enc, pairs, embeds, c) + if p.0 == c then piece else []
    ensures Grids(enc, FramesOf(pairs + [p], c)) == Grids(enc, FramesOf(pairs, c)) + if p.0 == c then [enc.grid(p.1)] else []
  {
    CutOne(enc, p, piece, c);
    CutAppend(enc, pairs, [p], embeds, piece, c);
    FramesOfSnoc(pairs, p, c);
    GridsAppend(enc, FramesOf(pairs, c), [p.1]);
  }

  /** The lists after a batch. */
  ghost predicate BatchAdded<F, E>(enc: Encoder<F, E>, before: Lists<E>, lists: Lists<E>, chunks: nat, pairs: seq<(nat, F)>)
    requires enc.area > 0 && Sized(before, chunks)
  {
    Sized(lists, chunks) && forall c :: 0 <= c < chunks ==>
      Grew(before, lists, c, Part(enc, pairs, c), Grids(enc, FramesOf(pairs, c)))
  }

  /** The fast way: cut the embeddings of the batch by the token counts. */
  method CutBatch<F, E>(enc: Encoder<F, E>, pairs: seq<(nat, F)>, before: Lists<E>, chunks: nat) returns (lists: Lists<E>)
    requires enc.area > 0 && Sized(before, chunks) && Fast(enc, pairs) && forall i :: 0 <= i < |pairs| ==> pairs[i].0 < chunks
    ensures BatchAdded(enc, before, lists, chunks, pairs)
  {
    lists := before;
    var embeds := Embs(enc, Frames(pairs));
    var offset := 0;
    CutNothing(enc, before, chunks, pairs);
    for i := 0 to |pairs|
      invariant 0 <= offset <= |embeds| && TokenSum(enc, Frames(pairs[..i])) == offset
      invariant CutSoFar(enc, before, lists, chunks, pairs[..i], embeds[..offset])
    {
      NextPiece(enc, pairs, i, embeds, offset);
      var end := offset + Tokens(enc, pairs[i].1);
      CutNext(enc, before, lists, chunks, pairs[..i], embeds[..offset], pairs[i], embeds[offset..end]);
      lists := Appended(lists, pairs[i].0, embeds[offset..end], [enc.grid(pairs[i].1)]);
      offset := end;
    }
    assert pairs[..|pairs|] == pairs && embeds[..offset] == embeds;
  }

  lemma CutNothing<F, E>(enc: Encoder<F, E>, before: Lists<E>, chunks: nat, pairs: seq<(nat, F)>)
    requires enc.area > 0 && Sized(before, chunks)
    ensures pairs[..0] == [] && TokenSum(enc, Frames(pairs[..0])) == 0 && CutSoFar(enc, before, before, chunks, pairs[..0], [])
  {
  }

  /** The next piece lies within the embeddings, since the totals are equal. */
  lemma NextPiece<F, E>(enc: Encoder<F, E>, pairs: seq<(nat, F)>, i: nat, embeds: seq<E>, offset: nat)
    requires enc.area > 0 && i < |pairs| && TokenSum(enc, Frames(pairs)) == |embeds|
    requires offset == TokenSum(enc, Frames(pairs[..i])) <= |embeds|
    ensures var end := offset + Tokens(enc, pairs[i].1);
            end <= |embeds| && pairs[..i + 1] == pairs[..i] + [pairs[i]] && embeds[..offset] + embeds[offset..end] == embeds[..end]
  {
    var head, tail := pairs[..i + 1], pairs[i + 1..];
    assert pairs == head + tail && head == pairs[..i] + [pairs[i]];
    TokensAppend(enc, head, tail);
    TokensAppend(enc, pairs[..i], [pairs[i]]);
    assert Frames([pairs[i]]) == [pairs[i].1];
    OneToken(enc, pairs[i].1);
  }

  lemma TokensAppend<F, E>(enc: Encoder<F, E>, a: seq<(nat, F)>, b: seq<(nat, F)>)
    requires enc.area > 0
    ensures TokenSum(enc, Frames(a + b)) == TokenSum(enc, Frames(a)) + TokenSum(enc, Frames(b))
  {
    FramesAppend(a, b);
    TokenSumAppend(enc, Frames(a), Frames(b));
  }

  /** The frames by chunk, with the chunks in the order in which they occur. */
  ghost predicate Groups<F>(pairs: seq<(nat, F)>, grouped: map<nat, seq<F>>, order: seq<nat>) {
    Distinct(order) && (forall k :: 0 <= k < |order| ==> order[k] in grouped) && (forall c :: c in grouped ==> c in order) &&
    GroupedFrames(pairs, grouped)
  }

  ghost predicate GroupedFrames<F>(pairs: seq<(nat, F)>, grouped: map<nat, seq<F>>) {
    forall c: nat :: FramesOf(pairs, c) == (if c in grouped then grouped[c] else []) && (c in grouped ==> grouped[c] != [])
  }

  lemma GroupNext<F>(pairs: seq<(nat, F)>, grouped: map<nat, seq<F>>, order: seq<nat>, c: nat, frame: F)
    requires Groups(pairs, grouped, order)
    ensures Groups(pairs + [(c, frame)], grouped[c := (if c in grouped then grouped[c] else []) + [frame]],
                   if c in grouped then order else order + [c])
  {
    FramesNext(pairs, grouped, c, frame);
    if c !in grouped { assert forall k :: 0 <= k < |order| ==> order[k] != c; }
  }

  lemma FramesNext<F>(pairs: seq<(nat, F)>, grouped: map<nat, seq<F>>, c: nat, frame: F)
    requires GroupedFrames(pairs, grouped)
    ensures GroupedFrames(pairs + [(c, frame)], grouped[c := (if c in grouped then grouped[c] else []) + [frame]])
  {
    var next := pairs + [(c, frame)];
    assert next[..|pairs|] == pairs;
    forall d: nat ensures FramesOf(next, d) == if d == c then FramesOf(pairs, d) + [frame] else FramesOf(pairs, d) {
      assert FramesOf(pairs, d) + [] == FramesOf(pairs, d);
    }
  }

  method GroupByChunk<F>(pairs: seq<(nat, F)>) returns (grouped: map<nat, seq<F>>, order: seq<nat>)
    ensures Groups(pairs, grouped, order)
  {
    grouped, order := map[], [];
    for i := 0 to |pairs|
      invariant Groups(pairs[..i], grouped, order)
    {
      var (c, frame) := pairs[i];
      GroupNext(pairs[..i], grouped, order, c, frame);
      PairsNext(pairs, i);
      order, grouped := if c in grouped then order else order + [c],
        grouped[c := (if c in grouped then grouped[c] else []) + [frame]];
    }
    assert pairs[..|pairs|] == pairs;
  }

  lemma PairsNext<F>(pairs: seq<(nat, F)>, i: nat)
    requires i < |pairs|
    ensures pairs[..i + 1] == pairs[..i] + [(pairs[i].0, pairs[i].1)]
  {
  }

  /** The lists after the chunks in `added` have been encoded. */
  ghost predicate GroupsAdded<F, E>(enc: Encoder<F, E>, before: Lists<E>, lists: Lists<E>, chunks: nat, pairs: seq<(nat, F)>, added: seq<nat>)
    requires Sized(before, chunks)
  {
    Sized(lists, chunks) && forall c :: 0 <= c < chunks ==>
      Grew(before, lists, c, if c in added then Embs(enc, FramesOf(pairs, c)) else [], if c in added then Grids(enc, FramesOf(pairs, c)) else [])
  }

  lemma GroupsNext<F, E>(enc: Encoder<F, E>, before: Lists<E>, lists: Lists<E>, chunks: nat, pairs: seq<(nat, F)>, added: seq<nat>, g: nat)
    requires Sized(before, chunks) && GroupsAdded(enc, before, lists, chunks, pairs, added) && g < chunks && g !in added
    ensures GroupsAdded(enc, before, Appended(lists, g, Embs(enc, FramesOf(pairs, g)), Grids(enc, FramesOf(pairs, g))), chunks, pairs, added + [g])
  {
    var embeds, grids := Embs(enc, FramesOf(pairs, g)), Grids(enc, FramesOf(pairs, g));
    GrewMore(before, lists, g, [], [], embeds, grids);
    assert [] + embeds == embeds && [] + grids == grids;
    forall c | 0 <= c < chunks ensures c in added + [g] <==> c in added || c == g {
    }
  }

  /** The fallback: encode the frames of every chunk in the batch on their own. */
  method EncodeGroups<F, E>(enc: Encoder<F, E>, pairs: seq<(nat, F)>, before: Lists<E>, chunks: nat) returns (lists: Lists<E>)
    requires enc.area > 0 && Sized(before, chunks) && !Fast(enc, pairs) && forall i :: 0 <= i < |pairs| ==> pairs[i].0 < chunks
    ensures BatchAdded(enc, before, lists, chunks, pairs)
  {
    var grouped, order := GroupByChunk(pairs);
    lists := before;
    for k := 0 to |order|
      invariant GroupsAdded(enc, before, lists, chunks, pairs, order[..k])
    {
      var c := order[k];
      GroupAt(pairs, grouped, order, k, chunks);
      GroupsNext(enc, before, lists, chunks, pairs, order[..k], c);
      var (emb, grid) := Encode(enc, grouped[c]);
      lists := Appended(lists, c, emb, grid);
    }
    assert order[..|order|] == order;
    GroupsCover(pairs, grouped, order);
  }

  lemma GroupAt<F>(pairs: seq<(nat, F)>, grouped: map<nat, seq<F>>, order: seq<nat>, k: nat, chunks: nat)
    requires Groups(pairs, grouped, order) && k < |order| && forall i :: 0 <= i < |pairs| ==> pairs[i].0 < chunks
    ensures var c := order[k];
            c !in order[..k] && order[..k + 1] == order[..k] + [c] && c in grouped && grouped[c] == FramesOf(pairs, c) && c < chunks
  {
    var c := order[k];
    assert c in grouped && grouped[c] == FramesOf(pairs, c);
    InSomeChunk(pairs, c, chunks);
    NotBefore(order, k);
  }

  lemma NotBefore(order: seq<nat>, k: nat)
    requires Distinct(order) && k < |order|
    ensures order[k] !in order[..k] && order[..k + 1] == order[..k] + [order[k]]
  {
  }

  lemma GroupsCover<F>(pairs: seq<(nat, F)>, grouped: map<nat, seq<F>>, order: seq<nat>)
    requires Groups(pairs, grouped, order)
    ensures forall c: nat :: c !in order ==> FramesOf(pairs, c) == []
  {
  }

  lemma {:induction false} InSomeChunk<F>(pairs: seq<(nat, F)>, c: nat, chunks: nat)
    requires forall i :: 0 <= i < |pairs| ==> pairs[i].0 < chunks
    ensures FramesOf(pairs, c) != [] ==> c < chunks
  {
    if pairs != [] { InSomeChunk(pairs[..|pairs| - 1], c, chunks); }
  }

  ghost predicate CollectedAt<F, E>(enc: Encoder<F, E>, lists: Lists<E>, batches: seq<seq<(nat, F)>>, c: nat)
    requires enc.area > 0 && c < |lists.embeds| && c < |lists.grids|
  {
    Flatten(lists.embeds[c]) == Parts(enc, batches, c) && Flatten(lists.grids[c]) == Grids(enc, FramesOf(Flatten(batches), c))
  }

  /** The lists after some batches. */
  ghost predicate Collected<F, E>(enc: Encoder<F, E>, lists: Lists<E>, chunks: nat, batches: seq<seq<(nat, F)>>)
    requires enc.area > 0
  {
    Sized(lists, chunks) && forall c: nat :: c < chunks ==> CollectedAt(enc, lists, batches, c)
  }

  lemma {:induction false} PartsSnoc<F, E>(enc: Encoder<F, E>, batches: seq<seq<(nat, F)>>, pairs: seq<(nat, F)>, c: nat)
    requires enc.area > 0
    ensures Parts(enc, batches + [pairs], c) == Parts(enc, batches, c) + Part(enc, pairs, c)
  {
    if batches == [] {
      assert (batches + [pairs])[1..] == [];
    } else {
      assert (batches + [pairs])[1..] == batches[1..] + [pairs];
      PartsSnoc(enc, batches[1..], pairs, c);
    }
  }

  lemma CollectedNext<F, E>(enc: Encoder<F, E>, before: Lists<E>, lists: Lists<E>, chunks: nat, batches: seq<seq<(nat, F)>>, pairs: seq<(nat, F)>)
    requires enc.area > 0 && Collected(enc, before, chunks, batches) && BatchAdded(enc, before, lists, chunks, pairs)
    ensures Collected(enc, lists, chunks, batches + [pairs])
  {
    forall c: nat | c < chunks ensures CollectedAt(enc, lists, batches + [pairs], c) {
      assert CollectedAt(enc, before, batches, c);
      assert Grew(before, lists, c, Part(enc, pairs, c), Grids(enc, FramesOf(pairs, c)));
      PartsSnoc(enc, batches, pairs, c);
      FlattenSnoc(batches, pairs);
      FramesOfAppend(Flatten(batches), pairs, c);
      GridsAppend(enc, FramesOf(Flatten(batches), c), FramesOf(pairs, c));
    }
  }

  method FlatPairs<F>(chunks: seq<seq<F>>) returns (flat: seq<(nat, F)>)
    ensures flat == Flat(chunks)
  {
    flat := [];
    for c := 0 to |chunks|
      invariant flat == Flat(chunks[..c])
    {
      assert chunks[..c + 1][..c] == chunks[..c];
      ghost var before := flat;
      for i := 0 to |chunks[c]|
        invariant flat == before + Tagged(c, chunks[c][..i])
      {
        assert Tagged(c, chunks[c][..i + 1]) == Tagged(c, chunks[c][..i]) + [(c, chunks[c][i])];
        flat := flat + [(c, chunks[c][i])];
      }
      assert chunks[c][..|chunks[c]|] == chunks[c];
    }
    assert chunks[..|chunks|] == chunks;
  }

  method EncodeBatch<F, E>(enc: Encoder<F, E>, pairs: seq<(nat, F)>, before: Lists<E>, chunks: nat) returns (lists: Lists<E>)
    requires enc.area > 0 && Sized(before, chunks) && forall i :: 0 <= i < |pairs| ==> pairs[i].0 < chunks
    ensures BatchAdded(enc, before, lists, chunks, pairs)
  {
    if TokenSum(enc, Frames(pairs)) != |Embs(enc, Frames(pairs))| {
      lists := EncodeGroups(enc, pairs, before, chunks);
    } else {
      lists := CutBatch(enc, pairs, before, chunks);
    }
  }

  /** Every chunk's tensors concatenated, or the empty result. */
  method Outputs<E>(lists: Lists<E>, chunks: nat) returns (out: seq<(seq<E>, seq<Grid>)>)
    requires Sized(lists, chunks)
    ensures |out| == chunks && forall c :: 0 <= c < chunks ==> out[c] == (Flatten(lists.embeds[c]), Flatten(lists.grids[c]))
  {
    out := [];
    for c := 0 to chunks
      invariant |out| == c && forall k :: 0 <= k < c ==> out[k] == (Flatten(lists.embeds[k]), Flatten(lists.grids[k]))
    {
      out := out + [if lists.embeds[c] != [] then (Flatten(lists.embeds[c]), Flatten(lists.grids[c])) else ([], [])];
    }
  }

  method CollectBatches<F, E>(enc: Encoder<F, E>, flat: seq<(nat, F)>, size: nat, chunks: nat) returns (lists: Lists<E>)
    requires enc.area > 0 && size > 0 && forall i :: 0 <= i < |flat| ==> flat[i].0 < chunks
    ensures Collected(enc, lists, chunks, Batches(flat, size))
  {
    lists := Lists(seq(chunks, _ => []), seq(chunks, _ => []));
    var offset := 0;
    ghost var batches: seq<seq<(nat, F)>> := [];
    while offset < |flat|
      invariant offset <= |flat| && batches + Batches(flat[offset..], size) == Batches(flat, size)
      invariant Collected(enc, lists, chunks, batches)
    {
      var pairs := flat[offset..if offset + size <= |flat| then offset + size else |flat|];
      NextBatch(flat, offset, size, batches);
      var next := EncodeBatch(enc, pairs, lists, chunks);
      CollectedNext(enc, lists, next, chunks, batches, pairs);
      lists, offset, batches := next, offset + |pairs|, batches + [pairs];
    }
    assert flat[offset..] == [] && batches == Batches(flat, size);
  }

  /** encode_vision_batched, for any batch size and any mix of batches that are cut and batches that fall back. */
  method EncodeBatched<F, E>(enc: Encoder<F, E>, chunks: seq<seq<F>>, maxFrames: int) returns (out: seq<(seq<E>, seq<Grid>)>)
    requires enc.area > 0
    ensures |out| == |chunks|
    ensures forall c :: 0 <= c < |chunks| ==>
      out[c] == (BatchedEmbs(enc, chunks, if maxFrames > 1 then maxFrames else 1, c), Grids(enc, chunks[c]))
    ensures (forall c :: 0 <= c < |chunks| ==> out[c] == Encode(enc, chunks[c])) <==>
            AllAgree(enc, Batches(Flat(chunks), if maxFrames > 1 then maxFrames else 1))
  {
    var flat := FlatPairs(chunks);
    FlatWithin(chunks);
    var size := if maxFrames > 1 then maxFrames else 1;
    var lists := CollectBatches(enc, flat, size, |chunks|);
    out := Outputs(lists, |chunks|);
    CollectedAll(enc, lists, chunks, size);
    BatchedRightIff(enc, chunks, size);
    OutputsRight(enc, chunks, size, out);
  }

  lemma CollectedAll<F, E>(enc: Encoder<F, E>, lists: Lists<E>, chunks: seq<seq<F>>, size: nat)
    requires enc.area > 0 && size > 0 && Collected(enc, lists, |chunks|, Batches(Flat(chunks), size))
    ensures forall c :: 0 <= c < |chunks| ==>
      Flatten(lists.embeds[c]) == BatchedEmbs(enc, chunks, size, c) && Flatten(lists.grids[c]) == Grids(enc, chunks[c])
  {
    FlattenBatches(Flat(chunks), size);
    forall c: nat | c < |chunks|
      ensures Flatten(lists.embeds[c]) == BatchedEmbs(enc, chunks, size, c) && Flatten(lists.grids[c]) == Grids(enc, chunks[c])
    {
      assert CollectedAt(enc, lists, Batches(Flat(chunks), size), c);
      FramesOfFlat(chunks, c);
    }
  }

  lemma NextBatch<F>(flat: seq<(nat, F)>, offset: nat, size: nat, batches: seq<seq<(nat, F)>>)
    requires size > 0 && offset < |flat| && batches + Batches(flat[offset..], size) == Batches(flat, size)
    ensures var pairs := flat[offset..if offset + size <= |flat| then offset + size else |flat|];
            |pairs| > 0 && (batches + [pairs]) + Batches(flat[offset + |pairs|..], size) == Batches(flat, size)
  {
    var rest := flat[offset..];
    var n := if size <= |rest| then size else |rest|;
    assert flat[offset..offset + n] == rest[..n] && flat[offset + n..] == rest[n..];
    assert (batches + [rest[..n]]) + Batches(rest[n..], size) == batches + ([rest[..n]] + Batches(rest[n..], size));
  }

  lemma OutputsRight<F, E>(enc: Encoder<F, E>, chunks: seq<seq<F>>, size: nat, out: seq<(seq<E>, seq<Grid>)>)
    requires enc.area > 0 && size > 0 && |out| == |chunks|
    requires forall c :: 0 <= c < |chunks| ==> out[c] == (BatchedEmbs(enc, chunks, size, c), Grids(enc, chunks[c]))
    ensures (forall c :: 0 <= c < |chunks| ==> out[c] == Encode(enc, chunks[c])) <==>
            (forall c :: 0 <= c < |chunks| ==> BatchedEmbs(enc, chunks, size, c) == Embs(enc, chunks[c]))
  {
    forall c | 0 <= c < |chunks|
      ensures out[c] == Encode(enc, chunks[c]) <==> BatchedEmbs(enc, chunks, size, c) == Embs(enc, chunks[c])
    {
    }
  }
}
