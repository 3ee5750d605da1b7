/** Cutting tensors and arrays along their first dimension, as torch and numpy do it. */
module TensorOps {
  import opened Arithmetic
  import opened Sequences

  // ---------------------------------------------------------------- rows in groups

  /** Consecutive groups of `size` rows: what view([count, size, -1]) indexes first. */
  function Rows<T>(t: seq<T>, size: nat, count: nat): (groups: seq<seq<T>>)
    requires |t| == count * size
    ensures |groups| == count && forall g :: 0 <= g < count ==> |groups[g]| == size
    decreases count
  {
    if count == 0 then []
    else
      assert |t[size..]| == (count - 1) * size by { LessOne(count, size); }
      [t[..size]] + Rows(t[size..], size, count - 1)
  }

  lemma LessOne(count: nat, size: nat)
    requires count > 0
    ensures count * size == size + (count - 1) * size && size <= count * size
  {
  }

  lemma {:induction false} FlattenRows<T>(t: seq<T>, size: nat, count: nat)
    requires |t| == count * size
    ensures Flatten(Rows(t, size, count)) == t
    decreases count
  {
    if count > 0 {
      LessOne(count, size);
      FlattenRows(t[size..], size, count - 1);
    }
  }

  ghost predicate Even<T>(groups: seq<seq<T>>, size: nat) {
    forall g :: 0 <= g < |groups| ==> |groups[g]| == size
  }

  lemma {:induction false} FlattenLength<T>(groups: seq<seq<T>>, size: nat)
    requires Even(groups, size)
    ensures |Flatten(groups)| == |groups| * size
  {
    if groups != [] {
      FlattenLength(groups[1..], size);
      LessOne(|groups|, size);
    }
  }

  lemma {:induction false} RowsFlatten<T>(groups: seq<seq<T>>, size: nat)
    requires Even(groups, size)
    ensures |Flatten(groups)| == |groups| * size && Rows(Flatten(groups), size, |groups|) == groups
  {
    FlattenLength(groups, size);
    if groups != [] {
      LessOne(|groups|, size);
      RowsFlatten(groups[1..], size);
      assert Flatten(groups)[..size] == groups[0] && Flatten(groups)[size..] == Flatten(groups[1..]);
    }
  }

  lemma {:induction false} RowsAppend<T>(a: seq<T>, b: seq<T>, size: nat, m: nat, n: nat)
    requires |a| == m * size && |b| == n * size
    ensures |a + b| == (m + n) * size && Rows(a + b, size, m + n) == Rows(a, size, m) + Rows(b, size, n)
    decreases m
  {
    assert (m + n) * size == m * size + n * size;
    if m == 0 {
      assert a + b == b;
    } else {
      LessOne(m, size);
      LessOne(m + n, size);
      RowsAppend(a[size..], b, size, m - 1, n);
      assert (a + b)[..size] == a[..size] && (a + b)[size..] == a[size..] + b;
    }
  }

  lemma {:induction false} RowsAt<T>(t: seq<T>, size: nat, count: nat, g: nat, r: nat)
    requires |t| == count * size && g < count && r < size
    ensures g * size + r < |t| && Rows(t, size, count)[g][r] == t[g * size + r]
    decreases count
  {
    LessOne(count, size);
    if g > 0 {
      LessOne(g, size);
      RowsAt(t[size..], size, count - 1, g - 1, r);
    }
  }

  // ---------------------------------------------------------------- torch.chunk

  function CeilDiv(a: nat, b: nat): nat
    requires b > 0
  {
    (a + b - 1) / b
  }

  lemma CeilPositive(a: nat, b: nat)
    requires a > 0 && b > 0
    ensures CeilDiv(a, b) > 0
  {
    if a <= b { DivUnique(a + b - 1, b, 1, a - 1); } else { CeilStep(a, b); }
  }

  lemma CeilStep(a: nat, b: nat)
    requires a > b > 0
    ensures CeilDiv(a, b) == CeilDiv(a - b, b) + 1
  {
    var q, r := (a - 1) / b, (a - 1) % b;
    DivUnique(a - b + b - 1, b, q, r);
    Distributive(q, 1, b);
    DivUnique(a + b - 1, b, q + 1, r);
  }

  function Pieces<T>(t: seq<T>, size: nat): seq<seq<T>>
    requires size > 0
  {
    if |t| <= size then [t] else [t[..size]] + Pieces(t[size..], size)
  }

  /** tensor.chunk(n): pieces of the rounded-up size, the last one possibly smaller, possibly fewer than n. */
  function Chunk<T>(t: seq<T>, n: nat): seq<seq<T>>
    requires n > 0
  {
    if t == [] then seq(n, _ => t) else Pieces(t, CeilDiv(|t|, n))
  }

  lemma {:induction false} PiecesAreRows<T>(t: seq<T>, size: nat, count: nat)
    requires size > 0 && count > 0 && |t| == count * size
    ensures Pieces(t, size) == Rows(t, size, count)
    decreases count
  {
    LessOne(count, size);
    if count > 1 {
      LessOne(count - 1, size);
      PiecesAreRows(t[size..], size, count - 1);
    } else {
      assert t[..size] == t && Rows(t[size..], size, 0) == [];
    }
  }

  lemma {:induction false} RowsOfNothing<T>(t: seq<T>, count: nat)
    requires t == []
    ensures Rows(t, 0, count) == seq(count, _ => t)
    decreases count
  {
    if count > 0 {
      RowsOfNothing(t[0..], count - 1);
      assert t[..0] == [] && t[0..] == [];
      assert seq(count, _ => t) == [t] + seq(count - 1, _ => t);
    }
  }

  lemma ExactChunk<T>(t: seq<T>, size: nat, count: nat)
    requires count > 0 && |t| == count * size
    ensures Chunk(t, count) == Rows(t, size, count)
  {
    if size == 0 {
      RowsOfNothing(t, count);
    } else {
      LessOne(count, size);
      assert (count * size + count - 1) / count == size by { DivExact(count, size); }
      PiecesAreRows(t, size, count);
    }
  }

  lemma DivExact(n: nat, k: nat)
    requires n > 0
    ensures (n * k + n - 1) / n == k
  {
    DivUnique(n * k + n - 1, n, k, n - 1);
  }

  lemma {:induction false} FlattenPieces<T>(t: seq<T>, size: nat)
    requires size > 0
    ensures Flatten(Pieces(t, size)) == t
    decreases |t|
  {
    if |t| <= size { FlattenOne(t); } else { FlattenPieces(t[size..], size); }
  }

  lemma {:induction false} FlattenEmpty<T>(t: seq<T>, n: nat)
    requires t == []
    ensures Flatten(seq(n, _ => t)) == []
  {
    if n > 0 {
      assert seq(n, _ => t)[1..] == seq(n - 1, _ => t);
      FlattenEmpty(t, n - 1);
    }
  }

  lemma FlattenChunk<T>(t: seq<T>, c: nat)
    requires c > 0
    ensures Flatten(Chunk(t, c)) == t
  {
    if t == [] { FlattenEmpty(t, c); } else { FlattenPieces(t, CeilDiv(|t|, c)); }
  }

  lemma {:induction false} PiecesCount<T>(t: seq<T>, size: nat)
    requires size > 0 && t != []
    ensures |Pieces(t, size)| == CeilDiv(|t|, size)
    decreases |t|
  {
    if |t| <= size {
      DivUnique(|t| + size - 1, size, 1, |t| - 1);
    } else {
      CeilStep(|t|, size);
      PiecesCount(t[size..], size);
    }
  }

  lemma {:induction false} PiecesSizes<T>(t: seq<T>, size: nat, c: nat)
    requires size > 0 && t != [] && c < |Pieces(t, size)|
    ensures 0 < |Pieces(t, size)[c]| <= size && (c < |Pieces(t, size)| - 1 ==> |Pieces(t, size)[c]| == size)
    decreases |t|
  {
    if |t| > size && c > 0 { PiecesSizes(t[size..], size, c - 1); }
  }

  lemma CeilBounds(a: nat, b: nat)
    requires b > 0
    ensures b * CeilDiv(a, b) >= a && b * CeilDiv(a, b) < a + b
  {
    DivParts(a + b - 1, b);
  }

  /** The first chunk has the least number of rows with which n chunks could hold all; every chunk but the last has as many,
      and the last one has at least one. */
  lemma ChunkSizesAre<T>(t: seq<T>, n: nat, c: nat)
    requires n > 0 && t != [] && c < |Chunk(t, n)|
    ensures var size := |Chunk(t, n)[0]|;
            n * (size - 1) < |t| <= n * size && 0 < |Chunk(t, n)[c]| <= size && (c < |Chunk(t, n)| - 1 ==> |Chunk(t, n)[c]| == size)
  {
    var size := CeilDiv(|t|, n);
    CeilPositive(|t|, n);
    CeilBounds(|t|, n);
    PiecesSizes(t, size, c);
    assert |Chunk(t, n)[0]| == size by { FirstIsFull(t, n, size); }
    Distributive(size - 1, 1, n);
  }

  /** Even a single piece has the rounded-up size. */
  lemma FirstIsFull<T>(t: seq<T>, n: nat, size: nat)
    requires n > 0 && t != [] && size > 0 && n * size >= |t| && n * size < |t| + n
    ensures |Pieces(t, size)[0]| == size
  {
    if |t| < size {
      Times(1, n, size - 1);
      Distributive(size - 1, 1, n);
    }
  }

  /** Chunks of the rounded-up size are as many as asked for. */
  predicate Fills(rows: nat, n: nat)
    requires n > 0
  {
    rows == 0 || (CeilPositive(rows, n); CeilDiv(rows, CeilDiv(rows, n)) == n)
  }

  lemma ChunkCount<T>(t: seq<T>, n: nat)
    requires n > 0
    ensures |Chunk(t, n)| == n <==> Fills(|t|, n)
  {
    if t != [] {
      CeilPositive(|t|, n);
      PiecesCount(t, CeilDiv(|t|, n));
    }
  }

  // ---------------------------------------------------------------- numpy.array_split

  /** The size of section i when k keys are split into n sections: the first k % n have one key more. */
  function SectionSize(k: nat, n: nat, i: nat): nat
    requires n > 0
  {
    k / n + if i < k % n then 1 else 0
  }

  lemma SectionFits(k: nat, n: nat)
    requires n > 0
    ensures SectionSize(k, n, 0) <= k
  {
    var q := k / n;
    Times(0, n - 1, q);
    Distributive(n - 1, 1, q);
    assert k == n * q + k % n;
  }

  /** numpy.array_split: every section takes its share of the keys that are left. */
  function ArraySplit<K>(keys: seq<K>, n: nat): seq<seq<K>>
    decreases n
  {
    if n == 0 then []
    else
      SectionFits(|keys|, n);
      var size := SectionSize(|keys|, n, 0);
      [keys[..size]] + ArraySplit(keys[size..], n - 1)
  }

  lemma {:induction false} SplitIsPartition<K>(keys: seq<K>, n: nat)
    requires n > 0
    ensures |ArraySplit(keys, n)| == n && Flatten(ArraySplit(keys, n)) == keys
    decreases n
  {
    SectionFits(|keys|, n);
    var size := SectionSize(|keys|, n, 0);
    if n > 1 {
      SplitIsPartition(keys[size..], n - 1);
    } else {
      assert size == |keys| && keys[..size] == keys && ArraySplit(keys[size..], 0) == [];
    }
  }

  lemma RestSections(k: nat, n: nat, i: nat)
    requires 0 < i < n
    ensures SectionSize(k, n, 0) <= k && SectionSize(k - SectionSize(k, n, 0), n - 1, i - 1) == SectionSize(k, n, i)
  {
    var q, r := k / n, k % n;
    SectionFits(k, n);
    var rest := if r > 0 then r - 1 else 0;
    Distributive(n - 1, 1, q);
    assert k - SectionSize(k, n, 0) == (n - 1) * q + rest by { assert k == n * q + r; }
    DivUnique(k - SectionSize(k, n, 0), n - 1, q, rest);
  }

  lemma {:induction false} SplitSizes<K>(keys: seq<K>, n: nat, i: nat)
    requires i < n
    ensures |ArraySplit(keys, n)| == n && |ArraySplit(keys, n)[i]| == SectionSize(|keys|, n, i)
    decreases n
  {
    SplitIsPartition(keys, n);
    SectionFits(|keys|, n);
    if i > 0 {
      RestSections(|keys|, n, i);
      SplitSizes(keys[SectionSize(|keys|, n, 0)..], n - 1, i - 1);
    }
  }

  /** Sections never grow with their number, and no two differ by more than one key. */
  lemma SplitIsEven<K>(keys: seq<K>, n: nat, i: nat, j: nat)
    requires i <= j < n
    ensures var sections := ArraySplit(keys, n); |sections| == n && |sections[j]| <= |sections[i]| <= |sections[j]| + 1
  {
    SplitSizes(keys, n, i);
    SplitSizes(keys, n, j);
  }
}
