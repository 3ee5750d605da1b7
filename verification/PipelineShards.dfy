/** How many layers each pipeline stage gets (verl/model_merger/megatron_model_merger.py). */
module PipelineShards {
  import opened Arithmetic
  import opened Outcomes

  function Sum(s: seq<int>): int {
    if s == [] then 0 else s[0] + Sum(s[1..])
  }

  function Same(x: int, n: nat): seq<int> {
    seq(n, _ => x)
  }

  function Abs(x: int): nat {
    if x < 0 then -x else x
  }

  /** What remains for the first and the last stage when each one in between has m layers. */
  function Ends(layers: int, stages: int, m: int): int {
    layers - m * (stages - 2)
  }

  /** The search's test of a middle size: 0 < first <= m and 0 < last <= m, with the rest halved. */
  predicate Accepted(layers: int, stages: int, m: int) {
    var ends := Ends(layers, stages, m);
    0 < ends / 2 <= m && 0 < ends - ends / 2 <= m
  }

  function Strategy(layers: int, stages: int, m: int): seq<int>
    requires stages >= 2
  {
    [Ends(layers, stages, m) / 2] + Same(m, stages - 2) + [Ends(layers, stages, m) - Ends(layers, stages, m) / 2]
  }

  function Unevenness(layers: int, stages: int, m: int): nat {
    Abs(Ends(layers, stages, m) / 2 - m)
  }

  /** A middle size is accepted if the stages can hold all layers and two layers remain for the ends. */
  lemma AcceptedIff(layers: int, stages: int, m: int)
    ensures Accepted(layers, stages, m) <==> layers <= m * stages && m * (stages - 2) <= layers - 2
  {
    assert m * (stages - 2) == m * stages - 2 * m;
  }

  // ---------------------------------------------------------------- the search

  /** sorted(..., key)[0]: the first of those with the smallest key. */
  method FirstBest(candidates: seq<(seq<int>, nat)>) returns (best: nat)
    requires candidates != []
    ensures best < |candidates|
    ensures forall i :: 0 <= i < |candidates| ==> candidates[best].1 <= candidates[i].1
    ensures forall i :: 0 <= i < best ==> candidates[best].1 < candidates[i].1
  {
    best := 0;
    for k := 1 to |candidates|
      invariant best < k <= |candidates|
      invariant forall i :: 0 <= i < k ==> candidates[best].1 <= candidates[i].1
      invariant forall i :: 0 <= i < best ==> candidates[best].1 < candidates[i].1
    {
      if candidates[k].1 < candidates[best].1 { best := k; }
    }
  }

  ghost predicate Candidates(layers: int, stages: int, upTo: int, ms: seq<int>) {
    (forall i, j :: 0 <= i < j < |ms| ==> ms[i] < ms[j]) &&
    forall m :: m in ms <==> 0 <= m < upTo && Accepted(layers, stages, m)
  }

  function Listed(layers: int, stages: int, ms: seq<int>): seq<(seq<int>, nat)>
    requires stages >= 2
  {
    seq(|ms|, i requires 0 <= i < |ms| => (Strategy(layers, stages, ms[i]), Unevenness(layers, stages, ms[i])))
  }

  lemma CandidatesNext(layers: int, stages: int, m: nat, ms: seq<int>)
    requires Candidates(layers, stages, m, ms)
    ensures Candidates(layers, stages, m + 1, if Accepted(layers, stages, m) then ms + [m] else ms)
  {
    assert forall i :: 0 <= i < |ms| ==> ms[i] in ms;
  }

  /** The middle sizes accepted, smallest first, each with its strategy and unevenness. */
  method Search(layers: int, stages: int) returns (candidates: seq<(seq<int>, nat)>, ghost ms: seq<int>)
    requires 3 <= stages <= layers
    ensures Candidates(layers, stages, layers, ms) && candidates == Listed(layers, stages, ms)
  {
    var middle := stages - 2;
    candidates, ms := [], [];
    for m := 0 to layers
      invariant Candidates(layers, stages, m, ms)
      invariant candidates == Listed(layers, stages, ms)
    {
      var ends := layers - m * middle;
      var first, last := ends / 2, ends - ends / 2;
      CandidatesNext(layers, stages, m, ms);
      if 0 < first <= m && 0 < last <= m {
        ms := ms + [m];
        candidates := candidates + [([first] + Same(m, middle) + [last], Abs(first - m))];
      }
    }
  }

  /** get_dynamic_pipeline_shards. With q = layers / stages, rounded up: every stage in between gets q layers, and the first
      and the last one share the rest, the last one taking the odd layer; if the rest is less than two layers, it raises. */
  method DynamicPipelineShards(layers: int, stages: int) returns (r: Result<seq<int>>)
    ensures layers < stages || stages < 1 <==> r == Raise(ValueError)
    ensures 3 <= stages <= layers ==>
      var q := (layers + stages - 1) / stages;
      (r.Ok? <==> layers - q * (stages - 2) >= 2) && (r.Raise? ==> r.error == IndexError) &&
      (r.Ok? ==> |r.value| == stages && r.value[0] + r.value[stages - 1] == layers - q * (stages - 2) &&
                 r.value[0] <= r.value[stages - 1] <= r.value[0] + 1 && forall i :: 0 < i < stages - 1 ==> r.value[i] == q)
    ensures r.Ok? ==> |r.value| == stages && Sum(r.value) == layers && forall i :: 0 <= i < stages ==> r.value[i] > 0
    ensures 3 <= stages <= layers && r.Ok? ==> r.value == EvenShards(layers, stages)
    ensures stages == 1 <= layers ==> r == Ok([layers])
    ensures stages == 2 <= layers ==> r == Ok([layers / 2, layers - layers / 2])
  {
    if layers < stages { return Raise(ValueError); }
    if stages < 1 { return Raise(ValueError); }
    if stages == 1 { return Ok([layers]); }
    if stages == 2 {
      var first, last := layers / 2, layers - layers / 2;
      SumAppend([first], [last]);
      return Ok([first, last]);
    }
    r := SearchShards(layers, stages);
    if r.Ok? { ShardsAreEven(layers, stages); }
  }

  method SearchShards(layers: int, stages: int) returns (r: Result<seq<int>>)
    requires 3 <= stages <= layers
    ensures r == if HasShards(layers, stages) then Ok(EvenShards(layers, stages)) else Raise(IndexError)
  {
    var candidates, ms := Search(layers, stages);
    BestCandidate(layers, stages, ms);
    if candidates == [] { return Raise(IndexError); }
    var best := FirstBest(candidates);
    FirstIsBest(layers, stages, ms, best);
    r := Ok(candidates[best].0);
  }

  /** layers / stages, rounded up. */
  function Rounded(layers: int, stages: int): int
    requires stages > 0
  {
    (layers + stages - 1) / stages
  }

  /** The rounded quotient leaves two layers for the ends. */
  predicate HasShards(layers: int, stages: int)
    requires stages > 0
  {
    Rounded(layers, stages) * (stages - 2) <= layers - 2
  }

  function EvenShards(layers: int, stages: int): seq<int>
    requires stages >= 2
  {
    Strategy(layers, stages, Rounded(layers, stages))
  }

  lemma RoundedIsLeast(layers: int, stages: int, m: int)
    requires stages > 0
    ensures layers <= m * stages <==> Rounded(layers, stages) <= m
  {
    var q := Rounded(layers, stages);
    assert layers <= q * stages < layers + stages;
    if q <= m { Times(q, m, stages); } else { Times(m + 1, q, stages); }
  }

  /** The accepted sizes, if there are any, start with the rounded quotient. */
  lemma BestCandidate(layers: int, stages: int, ms: seq<int>)
    requires 3 <= stages <= layers && Candidates(layers, stages, layers, ms)
    ensures ms != [] <==> HasShards(layers, stages)
    ensures ms != [] ==> ms[0] == Rounded(layers, stages)
  {
    var q := Rounded(layers, stages);
    RoundedIsLeast(layers, stages, q);
    AcceptedIff(layers, stages, q);
    if ms != [] {
      assert ms[0] in ms;
      AcceptedIff(layers, stages, ms[0]);
      RoundedIsLeast(layers, stages, ms[0]);
      Times(q, ms[0], stages - 2);
    }
    if q * (stages - 2) <= layers - 2 {
      RoundedIsLeast(layers, stages, 0);
      Times(1, stages - 2, q);
      assert q in ms;
    }
  }

  /** The larger the middle stages, the more uneven. */
  lemma MoreUneven(layers: int, stages: int, m: int, k: int)
    requires stages >= 3 && m < k && Accepted(layers, stages, m) && Accepted(layers, stages, k)
    ensures Unevenness(layers, stages, m) < Unevenness(layers, stages, k)
  {
    Times(m, k, stages - 2);
  }

  lemma FirstIsBest(layers: int, stages: int, ms: seq<int>, best: nat)
    requires stages >= 3 && Candidates(layers, stages, layers, ms) && best < |ms|
    requires forall i :: 0 <= i < |ms| ==> Listed(layers, stages, ms)[best].1 <= Listed(layers, stages, ms)[i].1
    ensures best == 0
  {
    if best > 0 {
      assert ms[0] in ms && ms[best] in ms;
      assert Listed(layers, stages, ms)[best].1 <= Listed(layers, stages, ms)[0].1;
      MoreUneven(layers, stages, ms[0], ms[best]);
    }
  }

  // ---------------------------------------------------------------- what the shards are

  ghost predicate IsSharding(s: seq<int>, layers: int, stages: int) {
    |s| == stages && Sum(s) == layers && forall i :: 0 <= i < |s| ==> s[i] > 0
  }

  ghost predicate Bounded(s: seq<int>, max: int) {
    forall i :: 0 <= i < |s| ==> s[i] <= max
  }

  lemma {:induction false} SumAppend(a: seq<int>, b: seq<int>)
    ensures Sum(a + b) == Sum(a) + Sum(b)
  {
    if a == [] {
      assert a + b == b;
    } else {
      assert (a + b)[1..] == a[1..] + b;
      SumAppend(a[1..], b);
    }
  }

  lemma {:induction false} SumSame(x: int, n: nat)
    ensures Sum(Same(x, n)) == n * x
  {
    if n > 0 {
      assert Same(x, n)[1..] == Same(x, n - 1);
      SumSame(x, n - 1);
    }
  }

  lemma {:induction false} SumBounded(s: seq<int>, max: int)
    requires Bounded(s, max)
    ensures Sum(s) <= max * |s|
  {
    if s != [] {
      SumBounded(s[1..], max);
      assert max * |s| == max + max * |s[1..]|;
    }
  }

  /** An accepted strategy gives every stage a layer and all layers a stage, and no stage more than m. */
  lemma AcceptedSharding(layers: int, stages: int, m: int)
    requires stages >= 3 && Accepted(layers, stages, m)
    ensures IsSharding(Strategy(layers, stages, m), layers, stages) && Bounded(Strategy(layers, stages, m), m)
  {
    var ends := Ends(layers, stages, m);
    SumAppend([ends / 2], Same(m, stages - 2));
    SumAppend([ends / 2] + Same(m, stages - 2), [ends - ends / 2]);
    SumSame(m, stages - 2);
  }

  /** No division into shards, even with empty stages, has a smaller largest stage. */
  lemma LeastMaximum(layers: int, stages: int, s: seq<int>, max: int)
    requires stages > 0 && |s| == stages && Sum(s) == layers && Bounded(s, max)
    ensures Rounded(layers, stages) <= max
  {
    SumBounded(s, max);
    RoundedIsLeast(layers, stages, max);
  }

  /** What the search gives for three or more stages, and when. The division is into non-empty stages with the
      smallest maximum there can be; there is none when the rounded quotient leaves less than two layers for the ends. */
  lemma ShardsAreEven(layers: int, stages: int)
    requires 3 <= stages <= layers && HasShards(layers, stages)
    ensures var s := EvenShards(layers, stages);
            IsSharding(s, layers, stages) && Bounded(s, Rounded(layers, stages)) &&
            forall t, max :: |t| == stages && Sum(t) == layers && Bounded(t, max) ==> Rounded(layers, stages) <= max
  {
    var q := Rounded(layers, stages);
    RoundedIsLeast(layers, stages, q);
    AcceptedIff(layers, stages, q);
    AcceptedSharding(layers, stages, q);
    forall t, max | |t| == stages && Sum(t) == layers && Bounded(t, max) ensures q <= max {
      LeastMaximum(layers, stages, t, max);
    }
  }

  /** There are valid inputs without a candidate: five layers on four stages could be 1, 1, 1 and 2. */
  lemma FiveOnFour()
    ensures !HasShards(5, 4)
    ensures IsSharding([1, 1, 1, 2], 5, 4)
  {
    assert Sum([1, 1, 1, 2]) == 1 + Sum([1, 1, 2]) == 2 + Sum([1, 2]) == 3 + Sum([2]) == 5;
  }
}
