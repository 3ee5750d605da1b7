/** What batched vision encoding gives every chunk, and when that is right (streamopd/streaming/qwen3_5.py). */
module VisionResult {
  import opened Sequences

  /** A row of image_grid_thw. */
  datatype Grid = Grid(t: nat, h: nat, w: nat)

  /** A per-frame encoder: what processor and model give for a list of frames is what they give for each frame, in
      order. `area` is the square of the merge size. */
  datatype Encoder<!F, E> = Encoder(emb: F -> seq<E>, grid: F -> Grid, area: nat)

  function Embs<F, E>(enc: Encoder<F, E>, frames: seq<F>): seq<E> {
    if frames == [] then [] else Embs(enc, frames[..|frames| - 1]) + enc.emb(frames[|frames| - 1])
  }

  function Grids<F, E>(enc: Encoder<F, E>, frames: seq<F>): seq<Grid> {
    seq(|frames|, i requires 0 <= i < |frames| => enc.grid(frames[i]))
  }

  /** encode_vision. */
  function Encode<F, E>(enc: Encoder<F, E>, frames: seq<F>): (seq<E>, seq<Grid>) {
    (Embs(enc, frames), Grids(enc, frames))
  }

  lemma {:induction false} EmbsAppend<F, E>(enc: Encoder<F, E>, a: seq<F>, b: seq<F>)
    ensures Embs(enc, a + b) == Embs(enc, a) + Embs(enc, b)
  {
    if b == [] {
      assert a + b == a;
    } else {
      assert (a + b)[..|a + b| - 1] == a + b[..|b| - 1];
      EmbsAppend(enc, a, b[..|b| - 1]);
    }
  }

  // ---------------------------------------------------------------- token counts

  /** The number of tokens that the grid of a frame accounts for. */
  function Tokens<F, E>(enc: Encoder<F, E>, frame: F): nat
    requires enc.area > 0
  {
    var g := enc.grid(frame);
    if g.t * g.h * g.w / enc.area > 1 then g.t * g.h * g.w / enc.area else 1
  }

  /** One token at least, and otherwise as many as there are whole areas in the grid. */
  lemma TokensAre<F, E>(enc: Encoder<F, E>, frame: F)
    requires enc.area > 0
    ensures var g, n := enc.grid(frame), Tokens(enc, frame);
            n >= 1 && g.t * g.h * g.w < enc.area * (n + 1) && (n > 1 ==> enc.area * n <= g.t * g.h * g.w)
  {
    var patches := enc.grid(frame).t * enc.grid(frame).h * enc.grid(frame).w;
    WholeAreas(patches, enc.area);
  }

  lemma WholeAreas(patches: nat, area: nat)
    requires area > 0
    ensures var n := if patches / area > 1 then patches / area else 1;
            patches < area * (n + 1) && (n > 1 ==> area * n <= patches)
  {
    var q := patches / area;
    assert patches == area * q + patches % area;
    assert area * (q + 1) == area * q + area;
    if q <= 1 { assert area * 2 >= area * (q + 1) by { if q == 0 { assert area * 2 >= area; } } }
  }

  function TokenSum<F, E>(enc: Encoder<F, E>, frames: seq<F>): nat
    requires enc.area > 0
  {
    if frames == [] then 0 else TokenSum(enc, frames[..|frames| - 1]) + Tokens(enc, frames[|frames| - 1])
  }

  lemma {:induction false} TokenSumAppend<F, E>(enc: Encoder<F, E>, a: seq<F>, b: seq<F>)
    requires enc.area > 0
    ensures TokenSum(enc, a + b) == TokenSum(enc, a) + TokenSum(enc, b)
  {
    if b == [] {
      assert a + b == a;
    } else {
      assert (a + b)[..|a + b| - 1] == a + b[..|b| - 1];
      TokenSumAppend(enc, a, b[..|b| - 1]);
    }
  }

  // ---------------------------------------------------------------- frames by chunk

  /** The frames that belong to a chunk, in order. */
  function FramesOf<F>(pairs: seq<(nat, F)>, chunk: nat): seq<F> {
    if pairs == [] then []
    else
      var (c, frame) := pairs[|pairs| - 1];
      FramesOf(pairs[..|pairs| - 1], chunk) + if c == chunk then [frame] else []
  }

  function Frames<F>(pairs: seq<(nat, F)>): seq<F> {
    seq(|pairs|, i requires 0 <= i < |pairs| => pairs[i].1)
  }

  lemma {:induction false} FramesOfAppend<F>(a: seq<(nat, F)>, b: seq<(nat, F)>, chunk: nat)
    ensures FramesOf(a + b, chunk) == FramesOf(a, chunk) + FramesOf(b, chunk)
  {
    if b == [] {
      assert a + b == a;
    } else {
      assert (a + b)[..|a + b| - 1] == a + b[..|b| - 1];
      FramesOfAppend(a, b[..|b| - 1], chunk);
    }
  }

  function Tagged<F>(chunk: nat, frames: seq<F>): seq<(nat, F)> {
    seq(|frames|, i requires 0 <= i < |frames| => (chunk, frames[i]))
  }

  /** The frames of all chunks with the chunk they belong to. */
  function Flat<F>(chunks: seq<seq<F>>): seq<(nat, F)> {
    if chunks == [] then [] else Flat(chunks[..|chunks| - 1]) + Tagged(|chunks| - 1, chunks[|chunks| - 1])
  }

  lemma {:induction false} FramesOfTagged<F>(c: nat, frames: seq<F>, chunk: nat)
    ensures FramesOf(Tagged(c, frames), chunk) == if c == chunk then frames else []
  {
    if frames != [] {
      var n := |frames| - 1;
      assert Tagged(c, frames)[..n] == Tagged(c, frames[..n]);
      FramesOfTagged(c, frames[..n], chunk);
    }
  }

  lemma {:induction false} FramesOfFlat<F>(chunks: seq<seq<F>>, chunk: nat)
    ensures FramesOf(Flat(chunks), chunk) == if chunk < |chunks| then chunks[chunk] else []
  {
    if chunks != [] {
      var n := |chunks| - 1;
      FramesOfFlat(chunks[..n], chunk);
      FramesOfTagged(n, chunks[n], chunk);
      FramesOfAppend(Flat(chunks[..n]), Tagged(n, chunks[n]), chunk);
    }
  }

  lemma {:induction false} FlatWithin<F>(chunks: seq<seq<F>>)
    ensures forall i :: 0 <= i < |Flat(chunks)| ==> Flat(chunks)[i].0 < |chunks|
  {
    if chunks != [] { FlatWithin(chunks[..|chunks| - 1]); }
  }

  lemma FramesAppend<F>(a: seq<(nat, F)>, b: seq<(nat, F)>)
    ensures Frames(a + b) == Frames(a) + Frames(b)
  {
  }

  ghost predicate InOrder<F>(pairs: seq<(nat, F)>) {
    forall i, j :: 0 <= i < j < |pairs| ==> pairs[i].0 <= pairs[j].0
  }

  lemma {:induction false} FlatInOrder<F>(chunks: seq<seq<F>>)
    ensures InOrder(Flat(chunks))
  {
    if chunks != [] {
      FlatInOrder(chunks[..|chunks| - 1]);
      FlatWithin(chunks[..|chunks| - 1]);
    }
  }

  lemma {:induction false} NotIn<F>(pairs: seq<(nat, F)>, c: nat)
    requires forall i :: 0 <= i < |pairs| ==> pairs[i].0 != c
    ensures FramesOf(pairs, c) == []
  {
    if pairs != [] { NotIn(pairs[..|pairs| - 1], c); }
  }

  lemma {:induction false} AllIn<F>(pairs: seq<(nat, F)>, c: nat)
    requires forall i :: 0 <= i < |pairs| ==> pairs[i].0 == c
    ensures FramesOf(pairs, c) == Frames(pairs)
  {
    if pairs != [] {
      var n := |pairs| - 1;
      AllIn(pairs[..n], c);
      assert pairs == pairs[..n] + [pairs[n]];
      FramesAppend(pairs[..n], [pairs[n]]);
    }
  }

  // ---------------------------------------------------------------- cutting a batch

  /** The batch is taken to be cut by its token counts: their total is the number of embeddings. */
  predicate Fast<F, E>(enc: Encoder<F, E>, pairs: seq<(nat, F)>)
    requires enc.area > 0
  {
    TokenSum(enc, Frames(pairs)) == |Embs(enc, Frames(pairs))|
  }

  /** What chunk c gets when the embeddings are cut by the token counts of the frames. */
  function Cut<F, E>(enc: Encoder<F, E>, pairs: seq<(nat, F)>, embeds: seq<E>, c: nat): seq<E>
    requires enc.area > 0 && TokenSum(enc, Frames(pairs)) == |embeds|
  {
    if pairs == [] then []
    else
      FirstTokens(enc, pairs);
      var n := Tokens(enc, pairs[0].1);
      (if pairs[0].0 == c then embeds[..n] else []) + Cut(enc, pairs[1..], embeds[n..], c)
  }

  lemma FirstTokens<F, E>(enc: Encoder<F, E>, pairs: seq<(nat, F)>)
    requires enc.area > 0 && pairs != []
    ensures TokenSum(enc, Frames(pairs)) == Tokens(enc, pairs[0].1) + TokenSum(enc, Frames(pairs[1..]))
  {
    assert pairs == [pairs[0]] + pairs[1..];
    FramesAppend([pairs[0]], pairs[1..]);
    TokenSumAppend(enc, Frames([pairs[0]]), Frames(pairs[1..]));
    OneToken(enc, pairs[0].1);
  }

  lemma OneToken<F, E>(enc: Encoder<F, E>, frame: F)
    requires enc.area > 0
    ensures TokenSum(enc, [frame]) == Tokens(enc, frame) && Embs(enc, [frame]) == enc.emb(frame)
  {
    assert [frame][..0] == [];
  }

  lemma {:induction false} CutAppend<F, E>(enc: Encoder<F, E>, a: seq<(nat, F)>, b: seq<(nat, F)>, x: seq<E>, y: seq<E>, c: nat)
    requires enc.area > 0 && TokenSum(enc, Frames(a)) == |x| && TokenSum(enc, Frames(b)) == |y|
    ensures TokenSum(enc, Frames(a + b)) == |x + y| && Cut(enc, a + b, x + y, c) == Cut(enc, a, x, c) + Cut(enc, b, y, c)
    decreases |a|
  {
    FramesAppend(a, b);
    TokenSumAppend(enc, Frames(a), Frames(b));
    if a == [] {
      assert a + b == b && x + y == y;
    } else {
      FirstTokens(enc, a);
      var n := Tokens(enc, a[0].1);
      SliceAppend(a, b, 1);
      SliceAppend(x, y, n);
      CutAppend(enc, a[1..], b, x[n..], y, c);
    }
  }

  /** Frame k of a batch takes the embeddings behind as many as the frames before it have tokens: as many as it has itself. */
  lemma FramePiece<F, E>(enc: Encoder<F, E>, pairs: seq<(nat, F)>, embeds: seq<E>, c: nat, k: nat)
    requires enc.area > 0 && TokenSum(enc, Frames(pairs)) == |embeds| && k < |pairs|
    ensures var a := TokenSum(enc, Frames(pairs[..k]));
            var b := a + Tokens(enc, pairs[k].1);
            b <= |embeds| && TokenSum(enc, Frames(pairs[k + 1..])) == |embeds[b..]| &&
            Cut(enc, pairs, embeds, c) ==
              Cut(enc, pairs[..k], embeds[..a], c) + (if pairs[k].0 == c then embeds[a..b] else []) + Cut(enc, pairs[k + 1..], embeds[b..], c)
  {
    TokensAround(enc, pairs, k);
    var a := TokenSum(enc, Frames(pairs[..k]));
    var b := a + Tokens(enc, pairs[k].1);
    assert pairs == pairs[..k] + [pairs[k]] + pairs[k + 1..];
    ThreeParts(embeds, a, b);
    CutFrame(enc, pairs[k], embeds[a..b], c);
    CutAppend(enc, pairs[..k], [pairs[k]], embeds[..a], embeds[a..b], c);
    CutAppend(enc, pairs[..k] + [pairs[k]], pairs[k + 1..], embeds[..a] + embeds[a..b], embeds[b..], c);
  }

  lemma TokensAround<F, E>(enc: Encoder<F, E>, pairs: seq<(nat, F)>, k: nat)
    requires enc.area > 0 && k < |pairs|
    ensures TokenSum(enc, Frames(pairs)) ==
            TokenSum(enc, Frames(pairs[..k])) + Tokens(enc, pairs[k].1) + TokenSum(enc, Frames(pairs[k + 1..]))
  {
    assert pairs[..k] + pairs[k..] == pairs && pairs[k..][0] == pairs[k] && pairs[k..][1..] == pairs[k + 1..];
    FramesAppend(pairs[..k], pairs[k..]);
    TokenSumAppend(enc, Frames(pairs[..k]), Frames(pairs[k..]));
    FirstTokens(enc, pairs[k..]);
  }

  lemma CutFrame<F, E>(enc: Encoder<F, E>, pair: (nat, F), embeds: seq<E>, c: nat)
    requires enc.area > 0 && |embeds| == Tokens(enc, pair.1)
    ensures TokenSum(enc, Frames([pair])) == |embeds| && Cut(enc, [pair], embeds, c) == if pair.0 == c then embeds else []
  {
    OneToken(enc, pair.1);
    assert Frames([pair]) == [pair.1] && [pair][1..] == [] && embeds[|embeds|..] == [];
  }

  lemma SliceAppend<T>(a: seq<T>, b: seq<T>, n: nat)
    requires n <= |a|
    ensures (a + b)[..n] == a[..n] && (a + b)[n..] == a[n..] + b && (n > 0 ==> (a + b)[0] == a[0])
  {
  }

  lemma {:induction false} CutLength<F, E>(enc: Encoder<F, E>, pairs: seq<(nat, F)>, embeds: seq<E>, c: nat)
    requires enc.area > 0 && TokenSum(enc, Frames(pairs)) == |embeds|
    ensures |Cut(enc, pairs, embeds, c)| == TokenSum(enc, FramesOf(pairs, c))
    decreases |pairs|
  {
    if pairs != [] {
      FirstTokens(enc, pairs);
      CutLength(enc, pairs[1..], embeds[Tokens(enc, pairs[0].1)..], c);
      FirstOf(pairs, c);
      TokenSumAppend(enc, if pairs[0].0 == c then [pairs[0].1] else [], FramesOf(pairs[1..], c));
      OneToken(enc, pairs[0].1);
    }
  }

  lemma FirstOf<F>(pairs: seq<(nat, F)>, c: nat)
    requires pairs != []
    ensures FramesOf(pairs, c) == (if pairs[0].0 == c then [pairs[0].1] else []) + FramesOf(pairs[1..], c)
  {
    var first := pairs[..1];
    assert pairs == first + pairs[1..];
    FramesOfAppend(first, pairs[1..], c);
    assert first[..0] == [];
  }

  lemma {:induction false} CutNone<F, E>(enc: Encoder<F, E>, pairs: seq<(nat, F)>, embeds: seq<E>, c: nat)
    requires enc.area > 0 && TokenSum(enc, Frames(pairs)) == |embeds| && forall i :: 0 <= i < |pairs| ==> pairs[i].0 != c
    ensures Cut(enc, pairs, embeds, c) == []
    decreases |pairs|
  {
    if pairs != [] {
      FirstTokens(enc, pairs);
      CutNone(enc, pairs[1..], embeds[Tokens(enc, pairs[0].1)..], c);
    }
  }

  lemma {:induction false} CutAll<F, E>(enc: Encoder<F, E>, pairs: seq<(nat, F)>, embeds: seq<E>, c: nat)
    requires enc.area > 0 && TokenSum(enc, Frames(pairs)) == |embeds| && forall i :: 0 <= i < |pairs| ==> pairs[i].0 == c
    ensures Cut(enc, pairs, embeds, c) == embeds
    decreases |pairs|
  {
    if pairs != [] {
      FirstTokens(enc, pairs);
      CutAll(enc, pairs[1..], embeds[Tokens(enc, pairs[0].1)..], c);
    }
  }

  // ---------------------------------------------------------------- batches

  /** What a batch contributes to chunk c. */
  function Part<F, E>(enc: Encoder<F, E>, pairs: seq<(nat, F)>, c: nat): seq<E>
    requires enc.area > 0
  {
    if Fast(enc, pairs) then Cut(enc, pairs, Embs(enc, Frames(pairs)), c) else Embs(enc, FramesOf(pairs, c))
  }

  function Parts<F, E>(enc: Encoder<F, E>, batches: seq<seq<(nat, F)>>, c: nat): seq<E>
    requires enc.area > 0
  {
    if batches == [] then [] else Part(enc, batches[0], c) + Parts(enc, batches[1..], c)
  }

  /** If the batch is cut, the token counts of each chunk's frames in it add up to the number of their embeddings. */
  ghost predicate Agrees<F, E>(enc: Encoder<F, E>, pairs: seq<(nat, F)>)
    requires enc.area > 0
  {
    Fast(enc, pairs) ==> forall c: nat :: Excess(enc, pairs, c) == 0
  }

  ghost predicate AllAgree<F, E>(enc: Encoder<F, E>, batches: seq<seq<(nat, F)>>)
    requires enc.area > 0
  {
    forall b :: 0 <= b < |batches| ==> Agrees(enc, batches[b])
  }

  /** By how much the token counts of a chunk's frames exceed the number of their embeddings. */
  function Excess<F, E>(enc: Encoder<F, E>, pairs: seq<(nat, F)>, c: nat): int
    requires enc.area > 0
  {
    TokenSum(enc, FramesOf(pairs, c)) - |Embs(enc, FramesOf(pairs, c))|
  }

  function ExcessUpTo<F, E>(enc: Encoder<F, E>, pairs: seq<(nat, F)>, n: nat): int
    requires enc.area > 0
  {
    if n == 0 then 0 else ExcessUpTo(enc, pairs, n - 1) + Excess(enc, pairs, n - 1)
  }

  /** What one more frame adds to the excess of its chunk. */
  function Surplus<F, E>(enc: Encoder<F, E>, frame: F): int
    requires enc.area > 0
  {
    Tokens(enc, frame) - |enc.emb(frame)|
  }

  lemma FramesOfSnoc<F>(pairs: seq<(nat, F)>, p: (nat, F), c: nat)
    ensures FramesOf(pairs + [p], c) == if p.0 == c then FramesOf(pairs, c) + [p.1] else FramesOf(pairs, c)
  {
    var next := pairs + [p];
    assert next[..|next| - 1] == pairs && next[|next| - 1] == p;
  }

  lemma ExcessSnoc<F, E>(enc: Encoder<F, E>, pairs: seq<(nat, F)>, p: (nat, F), c: nat)
    requires enc.area > 0
    ensures Excess(enc, pairs + [p], c) == Excess(enc, pairs, c) + if p.0 == c then Surplus(enc, p.1) else 0
  {
    FramesOfSnoc(pairs, p, c);
    TokenSumAppend(enc, FramesOf(pairs, c), [p.1]);
    EmbsAppend(enc, FramesOf(pairs, c), [p.1]);
    OneToken(enc, p.1);
  }

  lemma {:induction false} ExcessUpToSnoc<F, E>(enc: Encoder<F, E>, pairs: seq<(nat, F)>, p: (nat, F), n: nat)
    requires enc.area > 0
    ensures ExcessUpTo(enc, pairs + [p], n) == ExcessUpTo(enc, pairs, n) + if p.0 < n then Surplus(enc, p.1) else 0
  {
    if n > 0 {
      var next, m := pairs + [p], n - 1;
      ExcessUpToSnoc(enc, pairs, p, m);
      ExcessSnoc(enc, pairs, p, m);
      assert ExcessUpTo(enc, next, n) == ExcessUpTo(enc, next, m) + Excess(enc, next, m);
    }
  }

  /** The excesses of all chunks add up to that of the batch. */
  lemma {:induction false} ExcessTotal<F, E>(enc: Encoder<F, E>, pairs: seq<(nat, F)>, n: nat)
    requires enc.area > 0 && forall i :: 0 <= i < |pairs| ==> pairs[i].0 < n
    ensures ExcessUpTo(enc, pairs, n) == TokenSum(enc, Frames(pairs)) - |Embs(enc, Frames(pairs))|
  {
    if pairs == [] {
      NoExcess(enc, pairs, n);
    } else {
      var m := |pairs| - 1;
      ExcessTotal(enc, pairs[..m], n);
      ExcessUpToSnoc(enc, pairs[..m], pairs[m], n);
      assert pairs == pairs[..m] + [pairs[m]];
      FramesAppend(pairs[..m], [pairs[m]]);
      TokenSumAppend(enc, Frames(pairs[..m]), [pairs[m].1]);
      EmbsAppend(enc, Frames(pairs[..m]), [pairs[m].1]);
      OneToken(enc, pairs[m].1);
    }
  }

  lemma {:induction false} NoExcess<F, E>(enc: Encoder<F, E>, pairs: seq<(nat, F)>, n: nat)
    requires enc.area > 0 && pairs == []
    ensures ExcessUpTo(enc, pairs, n) == 0
  {
    if n > 0 { NoExcess(enc, pairs, n - 1); }
  }

  /** If all chunks but k have none, the sum is what k has. */
  lemma {:induction false} ExcessOne<F, E>(enc: Encoder<F, E>, pairs: seq<(nat, F)>, n: nat, k: nat)
    requires enc.area > 0 && forall c: nat :: c < n && c != k ==> Excess(enc, pairs, c) == 0
    ensures ExcessUpTo(enc, pairs, n) == if k < n then Excess(enc, pairs, k) else 0
  {
    if n > 0 { ExcessOne(enc, pairs, n - 1, k); }
  }

  // ---------------------------------------------------------------- agreement suffices

  lemma {:induction false} SplitAtChunk<F>(pairs: seq<(nat, F)>, c: nat) returns (i: nat, j: nat)
    requires InOrder(pairs)
    ensures i <= j <= |pairs| && (forall k :: 0 <= k < i ==> pairs[k].0 < c) && (forall k :: i <= k < j ==> pairs[k].0 == c)
    ensures forall k :: j <= k < |pairs| ==> pairs[k].0 > c
  {
    if pairs == [] {
      i, j := 0, 0;
    } else {
      var n := |pairs| - 1;
      i, j := SplitAtChunk(pairs[..n], c);
      if pairs[n].0 < c { i, j := n + 1, n + 1; } else if pairs[n].0 == c { j := n + 1; }
    }
  }

  /** In front of the frames of chunk c there are as many embeddings as tokens. */
  lemma BalancedBefore<F, E>(enc: Encoder<F, E>, pre: seq<(nat, F)>, rest: seq<(nat, F)>, c: nat)
    requires enc.area > 0 && (forall d: nat :: Excess(enc, pre + rest, d) == 0)
    requires (forall k :: 0 <= k < |pre| ==> pre[k].0 < c) && forall k :: 0 <= k < |rest| ==> rest[k].0 >= c
    ensures TokenSum(enc, Frames(pre)) == |Embs(enc, Frames(pre))|
  {
    forall d: nat | d < c ensures Excess(enc, pre, d) == 0 {
      FramesOfAppend(pre, rest, d);
      NotIn(rest, d);
      assert FramesOf(pre, d) + [] == FramesOf(pre, d);
      assert Excess(enc, pre + rest, d) == 0;
    }
    ExcessOne(enc, pre, c, c);
    ExcessTotal(enc, pre, c);
  }

  /** The total is that of the three parts, and so are the embeddings. */
  lemma ThreeSums<F, E>(enc: Encoder<F, E>, pre: seq<(nat, F)>, mid: seq<(nat, F)>, post: seq<(nat, F)>)
    requires enc.area > 0
    ensures TokenSum(enc, Frames(pre + mid + post)) == TokenSum(enc, Frames(pre)) + TokenSum(enc, Frames(mid)) + TokenSum(enc, Frames(post))
    ensures Embs(enc, Frames(pre + mid + post)) == Embs(enc, Frames(pre)) + Embs(enc, Frames(mid)) + Embs(enc, Frames(post))
  {
    FramesAppend(pre, mid);
    FramesAppend(pre + mid, post);
    EmbsAppend(enc, Frames(pre), Frames(mid));
    EmbsAppend(enc, Frames(pre + mid), Frames(post));
    TokenSumAppend(enc, Frames(pre), Frames(mid));
    TokenSumAppend(enc, Frames(pre + mid), Frames(post));
  }

  lemma ThreeCut<F, E>(enc: Encoder<F, E>, pre: seq<(nat, F)>, mid: seq<(nat, F)>, post: seq<(nat, F)>,
                       x: seq<E>, y: seq<E>, z: seq<E>, c: nat)
    requires enc.area > 0 && TokenSum(enc, Frames(pre)) == |x| && TokenSum(enc, Frames(mid)) == |y| && TokenSum(enc, Frames(post)) == |z|
    requires (forall k :: 0 <= k < |pre| ==> pre[k].0 != c) && (forall k :: 0 <= k < |mid| ==> mid[k].0 == c)
    requires forall k :: 0 <= k < |post| ==> post[k].0 != c
    ensures TokenSum(enc, Frames(pre + mid + post)) == |x + y + z| && Cut(enc, pre + mid + post, x + y + z, c) == y
  {
    CutAppend(enc, pre, mid, x, y, c);
    CutAppend(enc, pre + mid, post, x + y, z, c);
    CutNone(enc, pre, x, c);
    CutAll(enc, mid, y, c);
    CutNone(enc, post, z, c);
  }

  lemma FramesOfMid<F>(pre: seq<(nat, F)>, mid: seq<(nat, F)>, post: seq<(nat, F)>, c: nat)
    requires (forall k :: 0 <= k < |pre| ==> pre[k].0 != c) && (forall k :: 0 <= k < |mid| ==> mid[k].0 == c)
    requires forall k :: 0 <= k < |post| ==> post[k].0 != c
    ensures FramesOf(pre + mid + post, c) == Frames(mid)
  {
    FramesOfAppend(pre, mid, c);
    FramesOfAppend(pre + mid, post, c);
    NotIn(pre, c);
    AllIn(mid, c);
    NotIn(post, c);
  }

  lemma PartRight<F, E>(enc: Encoder<F, E>, pairs: seq<(nat, F)>, c: nat)
    requires enc.area > 0 && InOrder(pairs) && Agrees(enc, pairs)
    ensures Part(enc, pairs, c) == Embs(enc, FramesOf(pairs, c))
  {
    if Fast(enc, pairs) {
      var i, j := SplitAtChunk(pairs, c);
      ThreeParts(pairs, i, j);
      PartOfThree(enc, pairs, pairs[..i], pairs[i..j], pairs[j..], c);
    }
  }

  lemma ThreeParts<T>(s: seq<T>, i: nat, j: nat)
    requires i <= j <= |s|
    ensures s == s[..i] + s[i..j] + s[j..]
  {
  }

  lemma PartOfThree<F, E>(enc: Encoder<F, E>, pairs: seq<(nat, F)>, pre: seq<(nat, F)>, mid: seq<(nat, F)>, post: seq<(nat, F)>, c: nat)
    requires enc.area > 0 && pairs == pre + mid + post && Fast(enc, pairs) && Agrees(enc, pairs)
    requires (forall k :: 0 <= k < |pre| ==> pre[k].0 < c) && (forall k :: 0 <= k < |mid| ==> mid[k].0 == c)
    requires forall k :: 0 <= k < |post| ==> post[k].0 > c
    ensures Part(enc, pairs, c) == Embs(enc, FramesOf(pairs, c))
  {
    assert pairs == pre + (mid + post);
    BalancedBefore(enc, pre, mid + post, c);
    FramesOfMid(pre, mid, post, c);
    assert Excess(enc, pairs, c) == 0;
    CutMiddle(enc, pairs, pre, mid, post, c);
  }

  lemma CutMiddle<F, E>(enc: Encoder<F, E>, pairs: seq<(nat, F)>, pre: seq<(nat, F)>, mid: seq<(nat, F)>, post: seq<(nat, F)>, c: nat)
    requires enc.area > 0 && pairs == pre + mid + post && Fast(enc, pairs)
    requires TokenSum(enc, Frames(pre)) == |Embs(enc, Frames(pre))| && TokenSum(enc, Frames(mid)) == |Embs(enc, Frames(mid))|
    requires (forall k :: 0 <= k < |pre| ==> pre[k].0 != c) && (forall k :: 0 <= k < |mid| ==> mid[k].0 == c)
    requires forall k :: 0 <= k < |post| ==> post[k].0 != c
    ensures Part(enc, pairs, c) == Embs(enc, Frames(mid))
  {
    ThreeSums(enc, pre, mid, post);
    ThreeCut(enc, pre, mid, post, Embs(enc, Frames(pre)), Embs(enc, Frames(mid)), Embs(enc, Frames(post)), c);
  }

  lemma InOrderParts<F>(a: seq<(nat, F)>, b: seq<(nat, F)>)
    requires InOrder(a + b)
    ensures InOrder(a) && InOrder(b) && forall i, j :: 0 <= i < |a| && 0 <= j < |b| ==> a[i].0 <= b[j].0
  {
    assert forall i :: 0 <= i < |a| ==> (a + b)[i] == a[i];
    assert forall j :: 0 <= j < |b| ==> (a + b)[|a| + j] == b[j];
  }

  lemma {:induction false} PartsRight<F, E>(enc: Encoder<F, E>, batches: seq<seq<(nat, F)>>, c: nat)
    requires enc.area > 0 && InOrder(Flatten(batches)) && AllAgree(enc, batches)
    ensures Parts(enc, batches, c) == Embs(enc, FramesOf(Flatten(batches), c))
  {
    if batches != [] {
      var first, rest := batches[0], Flatten(batches[1..]);
      InOrderParts(first, rest);
      PartRight(enc, first, c);
      PartsRight(enc, batches[1..], c);
      FramesOfAppend(first, rest, c);
      EmbsAppend(enc, FramesOf(first, c), FramesOf(rest, c));
    }
  }

  // ---------------------------------------------------------------- agreement is necessary

  lemma PartLength<F, E>(enc: Encoder<F, E>, pairs: seq<(nat, F)>, c: nat)
    requires enc.area > 0
    ensures |Part(enc, pairs, c)| == |Embs(enc, FramesOf(pairs, c))| + if Fast(enc, pairs) then Excess(enc, pairs, c) else 0
  {
    if Fast(enc, pairs) { CutLength(enc, pairs, Embs(enc, Frames(pairs)), c); }
  }

  lemma {:induction false} PartsNone<F, E>(enc: Encoder<F, E>, batches: seq<seq<(nat, F)>>, c: nat)
    requires enc.area > 0 && FramesOf(Flatten(batches), c) == []
    ensures Parts(enc, batches, c) == []
  {
    if batches != [] {
      FramesOfAppend(batches[0], Flatten(batches[1..]), c);
      PartLength(enc, batches[0], c);
      PartsNone(enc, batches[1..], c);
    }
  }

  /** Every chunk gets as many embeddings as it should. */
  ghost predicate RightLengths<F, E>(enc: Encoder<F, E>, batches: seq<seq<(nat, F)>>)
    requires enc.area > 0
  {
    forall c: nat :: |Parts(enc, batches, c)| == |Embs(enc, FramesOf(Flatten(batches), c))|
  }

  /** A chunk that ends with the batch, or before, has no excess in it. */
  lemma EndedChunk<F, E>(enc: Encoder<F, E>, batches: seq<seq<(nat, F)>>, c: nat)
    requires enc.area > 0 && batches != [] && Fast(enc, batches[0]) && RightLengths(enc, batches)
    requires FramesOf(Flatten(batches[1..]), c) == []
    ensures Excess(enc, batches[0], c) == 0
  {
    var first, rest := batches[0], Flatten(batches[1..]);
    PartLength(enc, first, c);
    PartsNone(enc, batches[1..], c);
    FramesOfAppend(first, rest, c);
    assert FramesOf(first, c) + [] == FramesOf(first, c);
    assert |Parts(enc, batches, c)| == |Embs(enc, FramesOf(Flatten(batches), c))|;
  }

  /** Only the chunk of the last frame can go on in the next batch. With equal totals its excess is then 0 as well. */
  lemma FirstAgrees<F, E>(enc: Encoder<F, E>, batches: seq<seq<(nat, F)>>, n: nat)
    requires enc.area > 0 && batches != [] && InOrder(Flatten(batches)) && RightLengths(enc, batches)
    requires forall i :: 0 <= i < |batches[0]| ==> batches[0][i].0 < n
    ensures Agrees(enc, batches[0])
  {
    var first, rest := batches[0], Flatten(batches[1..]);
    if Fast(enc, first) {
      InOrderParts(first, rest);
      var k := if first == [] then 0 else first[|first| - 1].0;
      forall c: nat | c != k ensures Excess(enc, first, c) == 0 {
        if forall i :: 0 <= i < |first| ==> first[i].0 != c {
          NotIn(first, c);
        } else {
          NotIn(rest, c);
          EndedChunk(enc, batches, c);
        }
      }
      ExcessOne(enc, first, n, k);
      ExcessTotal(enc, first, n);
      if k >= n { NotIn(first, k); }
    }
  }

  lemma RestLengths<F, E>(enc: Encoder<F, E>, batches: seq<seq<(nat, F)>>)
    requires enc.area > 0 && batches != [] && RightLengths(enc, batches) && Agrees(enc, batches[0])
    ensures RightLengths(enc, batches[1..])
  {
    var first, rest := batches[0], Flatten(batches[1..]);
    forall c: nat ensures |Parts(enc, batches[1..], c)| == |Embs(enc, FramesOf(rest, c))| {
      assert |Parts(enc, batches, c)| == |Embs(enc, FramesOf(Flatten(batches), c))|;
      PartLength(enc, first, c);
      FramesOfAppend(first, rest, c);
      EmbsAppend(enc, FramesOf(first, c), FramesOf(rest, c));
    }
  }

  lemma {:induction false} LengthsForceAgreement<F, E>(enc: Encoder<F, E>, batches: seq<seq<(nat, F)>>, n: nat)
    requires enc.area > 0 && InOrder(Flatten(batches)) && RightLengths(enc, batches)
    requires forall i :: 0 <= i < |Flatten(batches)| ==> Flatten(batches)[i].0 < n
    ensures AllAgree(enc, batches)
  {
    if batches != [] {
      var first, rest := batches[0], Flatten(batches[1..]);
      assert forall i :: 0 <= i < |first| ==> first[i] == Flatten(batches)[i];
      assert forall i :: 0 <= i < |rest| ==> rest[i] == Flatten(batches)[|first| + i];
      InOrderParts(first, rest);
      FirstAgrees(enc, batches, n);
      RestLengths(enc, batches);
      LengthsForceAgreement(enc, batches[1..], n);
    }
  }

  // ---------------------------------------------------------------- the result, and when it is right

  /** The frames in batches, the last one possibly smaller. */
  function Batches<F>(flat: seq<(nat, F)>, size: nat): seq<seq<(nat, F)>>
    requires size > 0
  {
    if flat == [] then []
    else
      var n := if size <= |flat| then size else |flat|;
      [flat[..n]] + Batches(flat[n..], size)
  }

  lemma {:induction false} FlattenBatches<F>(flat: seq<(nat, F)>, size: nat)
    requires size > 0
    ensures Flatten(Batches(flat, size)) == flat
    decreases |flat|
  {
    if flat != [] { FlattenBatches(flat[if size <= |flat| then size else |flat|..], size); }
  }

  /** All batches but the last are full, and the last one is not empty. */
  lemma {:induction false} BatchesAreFull<F>(flat: seq<(nat, F)>, size: nat, b: nat)
    requires size > 0 && b < |Batches(flat, size)|
    ensures 0 < |Batches(flat, size)[b]| <= size && (b < |Batches(flat, size)| - 1 ==> |Batches(flat, size)[b]| == size)
    decreases |flat|
  {
    var n := if size <= |flat| then size else |flat|;
    if b > 0 { BatchesAreFull(flat[n..], size, b - 1); }
    if n < size { assert flat[n..] == []; }
  }

  /** What encode_vision_batched gives chunk c. */
  function BatchedEmbs<F, E>(enc: Encoder<F, E>, chunks: seq<seq<F>>, size: nat, c: nat): seq<E>
    requires enc.area > 0 && size > 0
  {
    Parts(enc, Batches(Flat(chunks), size), c)
  }

  /** Every chunk gets the encoding of its own frames if and only if, in every batch whose totals agree, the token counts of
      each chunk's frames add up to the number of their embeddings. */
  lemma BatchedRightIff<F, E>(enc: Encoder<F, E>, chunks: seq<seq<F>>, size: nat)
    requires enc.area > 0 && size > 0
    ensures (forall c :: 0 <= c < |chunks| ==> BatchedEmbs(enc, chunks, size, c) == Embs(enc, chunks[c]))
            <==> AllAgree(enc, Batches(Flat(chunks), size))
  {
    var flat, batches := Flat(chunks), Batches(Flat(chunks), size);
    FlattenBatches(flat, size);
    FlatInOrder(chunks);
    FlatWithin(chunks);
    if AllAgree(enc, batches) {
      forall c | 0 <= c < |chunks| ensures BatchedEmbs(enc, chunks, size, c) == Embs(enc, chunks[c]) {
        PartsRight(enc, batches, c);
        FramesOfFlat(chunks, c);
      }
    }
    if forall c :: 0 <= c < |chunks| ==> BatchedEmbs(enc, chunks, size, c) == Embs(enc, chunks[c]) {
      forall c: nat ensures |Parts(enc, batches, c)| == |Embs(enc, FramesOf(Flatten(batches), c))| {
        FramesOfFlat(chunks, c);
        if c < |chunks| { assert BatchedEmbs(enc, chunks, size, c) == Embs(enc, chunks[c]); } else { PartsNone(enc, batches, c); }
      }
      LengthsForceAgreement(enc, batches, |chunks|);
    }
  }

  /** Agreement for every single frame is enough. */
  lemma FramesSuffice<F, E>(enc: Encoder<F, E>, pairs: seq<(nat, F)>)
    requires enc.area > 0 && forall i :: 0 <= i < |pairs| ==> Surplus(enc, pairs[i].1) == 0
    ensures Agrees(enc, pairs)
  {
    forall c: nat ensures Excess(enc, pairs, c) == 0 { NoSurplus(enc, pairs, c); }
  }

  lemma {:induction false} NoSurplus<F, E>(enc: Encoder<F, E>, pairs: seq<(nat, F)>, c: nat)
    requires enc.area > 0 && forall i :: 0 <= i < |pairs| ==> Surplus(enc, pairs[i].1) == 0
    ensures Excess(enc, pairs, c) == 0
  {
    if pairs != [] {
      var n := |pairs| - 1;
      NoSurplus(enc, pairs[..n], c);
      ExcessSnoc(enc, pairs[..n], pairs[n], c);
      assert pairs == pairs[..n] + [pairs[n]];
    }
  }

  lemma CutOne<F, E>(enc: Encoder<F, E>, p: (nat, F), embeds: seq<E>, c: nat)
    requires enc.area > 0 && |embeds| == Tokens(enc, p.1)
    ensures TokenSum(enc, Frames([p])) == |embeds| && Cut(enc, [p], embeds, c) == if p.0 == c then embeds else []
  {
    OneToken(enc, p.1);
    assert Frames([p]) == [p.1];
    if p.0 == c { CutAll(enc, [p], embeds, c); } else { CutNone(enc, [p], embeds, c); }
  }

  /** Equal totals do not suffice: a batch of two chunks is cut in the wrong place, and both come out wrong. */
  lemma TotalsDoNotSuffice() returns (enc: Encoder<bool, int>)
    ensures enc.area > 0 && Embs(enc, [false]) == [5, 6, 5] && BatchedEmbs(enc, [[false], [true]], 8, 0) == [5, 6]
  {
    enc := Encoder((frame: bool) => if frame then [7] else [5, 6, 5], (frame: bool) => Grid(1, 2, 1), 1);
    var chunks, a, b := [[false], [true]], (0 as nat, false), (1 as nat, true);
    assert chunks[..1] == [[false]] && |chunks[..1][..0]| == 0;
    assert Tagged(0, [false]) == [a] && Tagged(1, [true]) == [b];
    assert Flat(chunks) == [a] + [b] == [a, b];
    var ab := [a, b];
    assert ab[..2] == ab && |ab[2..]| == 0;
    assert Batches(ab, 8) == [ab];
    OneToken(enc, false);
    OneToken(enc, true);
    FramesAppend([a], [b]);
    assert Frames([a]) == [false] && Frames([b]) == [true];
    TokenSumAppend(enc, [false], [true]);
    EmbsAppend(enc, [false], [true]);
    CutOne(enc, a, [5, 6], 0);
    CutOne(enc, b, [5, 7], 0);
    CutAppend(enc, [a], [b], [5, 6], [5, 7], 0);
    assert Embs(enc, [false] + [true]) == [5, 6] + [5, 7];
    assert Part(enc, [a, b], 0) == [5, 6];
  }
}
