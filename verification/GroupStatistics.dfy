/** Mean and standard deviation by group (verl/utils/groupwise.py), over the reals. */
module GroupStatistics {
  import opened Outcomes

  /** The sum of the values whose index is g. */
  function SumOf(idx: seq<nat>, vals: seq<real>, g: nat): real
    requires |idx| == |vals|
  {
    if idx == [] then 0.0
    else SumOf(idx[..|idx| - 1], vals[..|vals| - 1], g) + if idx[|idx| - 1] == g then vals[|vals| - 1] else 0.0
  }

  function Ones(n: nat): seq<real> {
    seq(n, _ => 1.0)
  }

  function Squares(vals: seq<real>): seq<real> {
    seq(|vals|, i requires 0 <= i < |vals| => vals[i] * vals[i])
  }

  function Count(idx: seq<nat>, g: nat): real {
    SumOf(idx, Ones(|idx|), g)
  }

  function Max(a: real, b: real): real {
    if a >= b then a else b
  }

  /** scores - mean[gidx]. */
  function Centred(idx: seq<nat>, scores: seq<real>, mean: seq<real>): seq<real>
    requires |idx| == |scores| && forall i :: 0 <= i < |idx| ==> idx[i] < |mean|
  {
    seq(|idx|, i requires 0 <= i < |idx| => scores[i] - mean[idx[i]])
  }

  // ---------------------------------------------------------------- sums

  lemma OnesPrefix(n: nat)
    requires n > 0
    ensures Ones(n)[..n - 1] == Ones(n - 1)
  {
  }

  lemma {:induction false} CountNatural(idx: seq<nat>, g: nat)
    ensures Count(idx, g) >= 0.0
    ensures Count(idx, g) > 0.0 ==> Count(idx, g) >= 1.0
    ensures Count(idx, g) > 1.0 ==> Count(idx, g) >= 2.0
    ensures g in idx ==> Count(idx, g) >= 1.0
  {
    if idx != [] {
      OnesPrefix(|idx|);
      CountNatural(idx[..|idx| - 1], g);
      assert idx == idx[..|idx| - 1] + [idx[|idx| - 1]];
    }
  }

  function CountsUpTo(idx: seq<nat>, groups: nat): real {
    if groups == 0 then 0.0 else CountsUpTo(idx, groups - 1) + Count(idx, groups - 1)
  }

  lemma {:induction false} CountsSnoc(idx: seq<nat>, x: nat, groups: nat)
    ensures CountsUpTo(idx + [x], groups) == CountsUpTo(idx, groups) + if x < groups then 1.0 else 0.0
  {
    if groups > 0 {
      CountsSnoc(idx, x, groups - 1);
      OnesPrefix(|idx| + 1);
      assert (idx + [x])[..|idx|] == idx;
    }
  }

  /** The counts of all groups add up to the number of scores. */
  lemma {:induction false} CountsAddUp(idx: seq<nat>, groups: nat)
    requires forall i :: 0 <= i < |idx| ==> idx[i] < groups
    ensures CountsUpTo(idx, groups) == |idx| as real
  {
    if idx == [] {
      NoCounts(groups);
    } else {
      var n := |idx| - 1;
      CountsAddUp(idx[..n], groups);
      CountsSnoc(idx[..n], idx[n], groups);
      assert idx == idx[..n] + [idx[n]];
    }
  }

  lemma {:induction false} NoCounts(groups: nat)
    ensures CountsUpTo([], groups) == 0.0
  {
    if groups > 0 { NoCounts(groups - 1); }
  }

  /** Sums of a group are linear in the values of the group. */
  lemma {:induction false} SumLinear(idx: seq<nat>, a: seq<real>, b: seq<real>, c: seq<real>, d: seq<real>, g: nat)
    requires |idx| == |a| == |b| == |c| == |d|
    requires forall i :: 0 <= i < |idx| && idx[i] == g ==> a[i] == b[i] - 2.0 * c[i] + d[i]
    ensures SumOf(idx, a, g) == SumOf(idx, b, g) - 2.0 * SumOf(idx, c, g) + SumOf(idx, d, g)
  {
    if idx != [] {
      var n := |idx| - 1;
      SumLinear(idx[..n], a[..n], b[..n], c[..n], d[..n], g);
    }
  }

  /** Multiplication by a constant, as far as sums are concerned. */
  ghost predicate Additive(f: real -> real) {
    f(0.0) == 0.0 && forall a, b :: f(a + b) == f(a) + f(b)
  }

  lemma Distribute(k: real, a: real, b: real)
    ensures k * (a + b) == k * a + k * b
  {
  }

  lemma ScalingAdditive(k: real, f: real -> real)
    requires Scales(f, k)
    ensures Additive(f)
  {
    forall a, b ensures f(a + b) == f(a) + f(b) { Distribute(k, a, b); }
  }

  lemma {:induction false} SumMapped(idx: seq<nat>, vals: seq<real>, mapped: seq<real>, f: real -> real, g: nat)
    requires |idx| == |vals| == |mapped| && Additive(f)
    requires forall i :: 0 <= i < |idx| && idx[i] == g ==> mapped[i] == f(vals[i])
    ensures SumOf(idx, mapped, g) == f(SumOf(idx, vals, g))
  {
    if idx != [] {
      var n := |idx| - 1;
      SumMapped(idx[..n], vals[..n], mapped[..n], f, g);
      assert f(SumOf(idx[..n], vals[..n], g) + vals[n]) == f(SumOf(idx[..n], vals[..n], g)) + f(vals[n]);
    }
  }

  lemma {:induction false} SumMinus(idx: seq<nat>, a: seq<real>, b: seq<real>, c: seq<real>, g: nat)
    requires |idx| == |a| == |b| == |c|
    requires forall i :: 0 <= i < |idx| && idx[i] == g ==> a[i] == b[i] - c[i]
    ensures SumOf(idx, a, g) == SumOf(idx, b, g) - SumOf(idx, c, g)
  {
    if idx != [] {
      var n := |idx| - 1;
      SumMinus(idx[..n], a[..n], b[..n], c[..n], g);
    }
  }

  /** Centring by any value shifts the sum of a group by that value for each of its scores; f multiplies by it. */
  lemma CentredSum(idx: seq<nat>, scores: seq<real>, centred: seq<real>, f: real -> real, g: nat)
    requires |idx| == |scores| == |centred| && Additive(f)
    requires forall i :: 0 <= i < |idx| && idx[i] == g ==> centred[i] == scores[i] - f(1.0)
    ensures SumOf(idx, centred, g) == SumOf(idx, scores, g) - f(Count(idx, g))
  {
    var shift := seq(|idx|, _ => f(1.0));
    SumMinus(idx, centred, scores, shift, g);
    SumMapped(idx, Ones(|idx|), shift, f, g);
  }

  /** The sum of the centred squares, from the sums of the scores and of their squares; h multiplies by the square. */
  lemma CentredSquares(idx: seq<nat>, scores: seq<real>, squares: seq<real>, centredSquares: seq<real>, f: real -> real, h: real -> real, g: nat)
    requires |idx| == |scores| == |squares| == |centredSquares| && Additive(f) && Additive(h)
    requires forall i :: 0 <= i < |idx| && idx[i] == g ==> centredSquares[i] == squares[i] - 2.0 * f(scores[i]) + h(1.0)
    ensures SumOf(idx, centredSquares, g) == SumOf(idx, squares, g) - 2.0 * f(SumOf(idx, scores, g)) + h(Count(idx, g))
  {
    var mixed := seq(|idx|, i requires 0 <= i < |idx| => f(scores[i]));
    var constant := seq(|idx|, _ => h(1.0));
    SumLinear(idx, centredSquares, squares, mixed, constant, g);
    SumMapped(idx, scores, mixed, f, g);
    SumMapped(idx, Ones(|idx|), constant, h, g);
  }

  /** What centring does to one score and its square. */
  lemma CentredAt(idx: seq<nat>, scores: seq<real>, mean: seq<real>, m: real, f: real -> real, h: real -> real, i: nat)
    requires |idx| == |scores| && i < |idx| && (forall i :: 0 <= i < |idx| ==> idx[i] < |mean|) && m == mean[idx[i]]
    requires Scales(f, m) && Scales(h, m * m)
    ensures Centred(idx, scores, mean)[i] == scores[i] - f(1.0)
    ensures Squares(Centred(idx, scores, mean))[i] == Squares(scores)[i] - 2.0 * f(scores[i]) + h(1.0)
  {
    Square(scores[i], m);
  }

  lemma Square(a: real, b: real)
    ensures (a - b) * (a - b) == a * a - 2.0 * (b * a) + b * b
  {
  }

  /** The documented variance: (sum2 - sum^2 / count) / max(count - 1, 1). */
  function Variance(idx: seq<nat>, scores: seq<real>, g: nat): real
    requires |idx| == |scores| && Count(idx, g) > 0.0
  {
    Numerator(SumOf(idx, Squares(scores), g), SumOf(idx, scores, g), Count(idx, g)) / Max(Count(idx, g) - 1.0, 1.0)
  }

  ghost predicate Scales(f: real -> real, k: real) {
    forall a :: f(a) == k * a
  }

  /** The centred scores of group g and their squares, with f and h for the multiplications. */
  ghost predicate CentredBy(idx: seq<nat>, scores: seq<real>, squares: seq<real>, centred: seq<real>, centredSquares: seq<real>,
                            f: real -> real, h: real -> real, g: nat)
    requires |idx| == |scores| == |squares| == |centred| == |centredSquares|
  {
    forall i :: 0 <= i < |idx| && idx[i] == g ==>
      centred[i] == scores[i] - f(1.0) && centredSquares[i] == squares[i] - 2.0 * f(scores[i]) + h(1.0)
  }

  lemma IsCentredBy(idx: seq<nat>, scores: seq<real>, mean: seq<real>, m: real, f: real -> real, h: real -> real, g: nat)
    requires |idx| == |scores| && g < |mean| && (forall i :: 0 <= i < |idx| ==> idx[i] < |mean|)
    requires m == mean[g] && Scales(f, m) && Scales(h, m * m)
    ensures CentredBy(idx, scores, Squares(scores), Centred(idx, scores, mean), Squares(Centred(idx, scores, mean)), f, h, g)
  {
    var centred := Centred(idx, scores, mean);
    forall i | 0 <= i < |idx| && idx[i] == g
      ensures centred[i] == scores[i] - f(1.0) && Squares(centred)[i] == Squares(scores)[i] - 2.0 * f(scores[i]) + h(1.0)
    {
      CentredAt(idx, scores, mean, m, f, h, i);
    }
  }

  lemma CentredSums(idx: seq<nat>, scores: seq<real>, squares: seq<real>, centred: seq<real>, centredSquares: seq<real>,
                    f: real -> real, h: real -> real, g: nat)
    requires |idx| == |scores| == |squares| == |centred| == |centredSquares| && Additive(f) && Additive(h)
    requires CentredBy(idx, scores, squares, centred, centredSquares, f, h, g)
    ensures SumOf(idx, centred, g) == SumOf(idx, scores, g) - f(Count(idx, g))
    ensures SumOf(idx, centredSquares, g) == SumOf(idx, squares, g) - 2.0 * f(SumOf(idx, scores, g)) + h(Count(idx, g))
  {
    CentredSum(idx, scores, centred, f, g);
    CentredSquares(idx, scores, squares, centredSquares, f, h, g);
  }

  /** With the mean, the centred scores of a group sum to zero, and their squares to sum2 - sum^2 / count. */
  lemma TwoPassSums(idx: seq<nat>, scores: seq<real>, squares: seq<real>, centred: seq<real>, centredSquares: seq<real>,
                    f: real -> real, h: real -> real, m: real, g: nat)
    requires |idx| == |scores| == |squares| == |centred| == |centredSquares| && Count(idx, g) >= 1.0
    requires Scales(f, m) && Scales(h, m * m) && CentredBy(idx, scores, squares, centred, centredSquares, f, h, g)
    requires m == SumOf(idx, scores, g) / Count(idx, g)
    ensures SumOf(idx, centred, g) == 0.0
    ensures SumOf(idx, centredSquares, g) == Numerator(SumOf(idx, squares, g), SumOf(idx, scores, g), Count(idx, g))
  {
    ScalingAdditive(m, f);
    ScalingAdditive(m * m, h);
    CentredSums(idx, scores, squares, centred, centredSquares, f, h, g);
    MeanCancels(SumOf(idx, squares, g), SumOf(idx, scores, g), Count(idx, g), m, f, h);
  }

  function Numerator(sum2: real, sum: real, count: real): real
    requires count > 0.0
  {
    sum2 - sum * sum / count
  }

  lemma MeanCancels(sum2: real, sum: real, count: real, m: real, f: real -> real, h: real -> real)
    requires count >= 1.0 && m == sum / count && Scales(f, m) && Scales(h, m * m)
    ensures f(count) == sum && sum2 - 2.0 * f(sum) + h(count) == Numerator(sum2, sum, count)
  {
    assert m * count == sum;
    Regroup(m, count, sum);
    Quotient(sum * sum, count, m * sum);
  }

  lemma Regroup(m: real, count: real, sum: real)
    requires m * count == sum
    ensures (m * m) * count == m * sum && (m * sum) * count == sum * sum
  {
    assert (m * m) * count == m * (m * count);
    assert (m * sum) * count == sum * (m * count);
  }

  lemma Quotient(a: real, b: real, q: real)
    requires b > 0.0 && q * b == a
    ensures a / b == q
  {
  }

  lemma Scalings(m: real) returns (f: real -> real, h: real -> real)
    ensures Scales(f, m) && Scales(h, m * m)
  {
    f, h := (a: real) => m * a, (a: real) => m * m * a;
  }

  /** Both results, for the centred scores that the code computes. */
  lemma TwoPass(idx: seq<nat>, scores: seq<real>, mean: seq<real>, g: nat)
    requires |idx| == |scores| && g < |mean| && (forall i :: 0 <= i < |idx| ==> idx[i] < |mean|)
    requires Count(idx, g) >= 1.0 && mean[g] == SumOf(idx, scores, g) / Count(idx, g)
    ensures SumOf(idx, Centred(idx, scores, mean), g) == 0.0
    ensures SumOf(idx, Squares(Centred(idx, scores, mean)), g) == Numerator(SumOf(idx, Squares(scores), g), SumOf(idx, scores, g), Count(idx, g))
  {
    var m := mean[g];
    var f, h := Scalings(m);
    IsCentredBy(idx, scores, mean, m, f, h, g);
    TwoPassSums(idx, scores, Squares(scores), Centred(idx, scores, mean), Squares(Centred(idx, scores, mean)), f, h, m, g);
  }

  /** The squared deviations from the means of the groups. */
  function Deviations(idx: seq<nat>, scores: seq<real>, mean: seq<real>): seq<real>
    requires |idx| == |scores| && forall i :: 0 <= i < |idx| ==> idx[i] < |mean|
  {
    seq(|idx|, i requires 0 <= i < |idx| => (scores[i] - mean[idx[i]]) * (scores[i] - mean[idx[i]]))
  }

  /** The variance is the sum of the squared deviations over one less than the count. */
  lemma VarianceIs(idx: seq<nat>, scores: seq<real>, mean: seq<real>, g: nat)
    requires |idx| == |scores| && g < |mean| && (forall i :: 0 <= i < |idx| ==> idx[i] < |mean|)
    requires Count(idx, g) > 1.0 && mean[g] == SumOf(idx, scores, g) / Count(idx, g)
    ensures Variance(idx, scores, g) == SumOf(idx, Deviations(idx, scores, mean), g) / (Count(idx, g) - 1.0)
  {
    CountNatural(idx, g);
    VarianceQuotient(idx, scores, mean, g);
  }

  lemma VarianceQuotient(idx: seq<nat>, scores: seq<real>, mean: seq<real>, g: nat)
    requires |idx| == |scores| && g < |mean| && (forall i :: 0 <= i < |idx| ==> idx[i] < |mean|)
    requires Count(idx, g) >= 1.0 && mean[g] == SumOf(idx, scores, g) / Count(idx, g)
    ensures Variance(idx, scores, g) == SumOf(idx, Deviations(idx, scores, mean), g) / Max(Count(idx, g) - 1.0, 1.0)
  {
    DeviationsSum(idx, scores, mean, g);
  }

  lemma DeviationsSum(idx: seq<nat>, scores: seq<real>, mean: seq<real>, g: nat)
    requires |idx| == |scores| && g < |mean| && (forall i :: 0 <= i < |idx| ==> idx[i] < |mean|)
    requires Count(idx, g) >= 1.0 && mean[g] == SumOf(idx, scores, g) / Count(idx, g)
    ensures SumOf(idx, Deviations(idx, scores, mean), g) == Numerator(SumOf(idx, Squares(scores), g), SumOf(idx, scores, g), Count(idx, g))
  {
    TwoPass(idx, scores, mean, g);
    SameDeviations(idx, scores, mean);
  }

  lemma SameDeviations(idx: seq<nat>, scores: seq<real>, mean: seq<real>)
    requires |idx| == |scores| && forall i :: 0 <= i < |idx| ==> idx[i] < |mean|
    ensures Deviations(idx, scores, mean) == Squares(Centred(idx, scores, mean))
  {
    var centred := Centred(idx, scores, mean);
    forall i | 0 <= i < |idx| ensures Deviations(idx, scores, mean)[i] == Squares(centred)[i] {
      assert centred[i] == scores[i] - mean[idx[i]];
    }
  }

  // ---------------------------------------------------------------- the computation

  /** index_add_ on a tensor of zeros. */
  method IndexAdd(groups: nat, idx: seq<nat>, vals: seq<real>) returns (sums: seq<real>)
    requires |idx| == |vals| && forall i :: 0 <= i < |idx| ==> idx[i] < groups
    ensures |sums| == groups && forall g :: 0 <= g < groups ==> sums[g] == SumOf(idx, vals, g)
  {
    var a := new real[groups](_ => 0.0);
    for i := 0 to |idx|
      invariant forall g :: 0 <= g < groups ==> a[g] == SumOf(idx[..i], vals[..i], g)
    {
      assert idx[..i + 1][..i] == idx[..i] && vals[..i + 1][..i] == vals[..i];
      a[idx[i]] := a[idx[i]] + vals[i];
    }
    assert idx[..|idx|] == idx && vals[..|idx|] == vals;
    sums := a[..];
  }

  method Groups(idx: seq<nat>) returns (groups: nat)
    ensures forall i :: 0 <= i < |idx| ==> idx[i] < groups
    ensures groups > 0 ==> groups - 1 in idx
  {
    groups := 0;
    for i := 0 to |idx|
      invariant forall k :: 0 <= k < i ==> idx[k] < groups
      invariant groups > 0 ==> groups - 1 in idx
    {
      if idx[i] >= groups { groups := idx[i] + 1; }
    }
  }

  datatype Stats = Stats(mean: seq<real>, std: seq<real>, count: seq<real>)

  /** group_mean_std; `sqrt` is the square root. */
  method GroupMeanStd(scores: seq<real>, idx: seq<nat>, eps: real, sqrt: real -> real) returns (r: Result<Stats>, ghost groups: nat)
    ensures r == Raise(ValueError) <==> |scores| != |idx|
    ensures r.Raise? ==> r.error == ValueError
    ensures (forall i :: 0 <= i < |idx| ==> idx[i] < groups) && (groups > 0 ==> groups - 1 in idx)
    ensures r.Ok? ==> |r.value.mean| == |r.value.std| == |r.value.count| == groups
    ensures r.Ok? ==> forall g :: 0 <= g < groups ==>
      r.value.count[g] == Count(idx, g) &&
      if Count(idx, g) > 1.0
      then
        var variance := Variance(idx, scores, g);
        r.value.mean[g] == SumOf(idx, scores, g) / Count(idx, g) && r.value.std[g] == sqrt(if variance >= eps then variance else eps) &&
        variance == SumOf(idx, Deviations(idx, scores, r.value.mean), g) / (Count(idx, g) - 1.0)
      else r.value.mean[g] == 0.0 && r.value.std[g] == 1.0
  {
    var n := Groups(idx);
    groups := n;
    if |scores| != |idx| { return Raise(ValueError), groups; }
    var count := IndexAdd(n, idx, Ones(|scores|));
    var s1 := IndexAdd(n, idx, scores);
    var mean := seq(n, g requires 0 <= g < n => s1[g] / Max(count[g], 1.0));
    var centred := Centred(idx, scores, mean);
    var varNum := IndexAdd(n, idx, Squares(centred));
    var std := seq(n, g requires 0 <= g < n => sqrt(Max(varNum[g] / Max(count[g] - 1.0, 1.0), eps)));
    forall g | 0 <= g < n && Count(idx, g) > 1.0 ensures std[g] == sqrt(Max(Variance(idx, scores, g), eps)) {
      TwoPass(idx, scores, mean, g);
    }
    var mean' := seq(n, g requires 0 <= g < n => if count[g] <= 1.0 then 0.0 else mean[g]);
    var std' := seq(n, g requires 0 <= g < n => if count[g] <= 1.0 then 1.0 else std[g]);
    r := Ok(Stats(mean', std', count));
    forall g | 0 <= g < n && Count(idx, g) > 1.0
      ensures Variance(idx, scores, g) == SumOf(idx, Deviations(idx, scores, mean'), g) / (Count(idx, g) - 1.0)
    {
      VarianceIs(idx, scores, mean', g);
    }
  }
}
