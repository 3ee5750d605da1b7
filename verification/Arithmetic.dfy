/** Facts about products and quotients. */
module Arithmetic {

  lemma Associative(a: nat, b: nat, c: nat)
    ensures a * (b * c) == (a * b) * c
  {
  }

  lemma Distributive(a: int, b: int, c: int)
    ensures (a + b) * c == a * c + b * c
  {
  }

  lemma Times(a: int, b: int, c: int)
    requires a <= b && c >= 0
    ensures a * c <= b * c
  {
  }

  lemma MulGrows(n: int, m: int)
    requires n > 0 && m != 0
    ensures n * m >= n || n * m <= -n
  {
    if m > 0 {
      assert n * (m - 1) >= 0 && n * m == n + n * (m - 1);
    } else {
      assert n * (-m - 1) >= 0 && n * m == -n - n * (-m - 1);
    }
  }

  lemma DivUnique(x: nat, n: nat, k: nat, r: nat)
    requires x == n * k + r && r < n
    ensures x / n == k && x % n == r
  {
    var m: int := x / n - k;
    assert n * m == n * (x / n) - n * k;
    if m != 0 { MulGrows(n, m); }
  }

  /** a / b, known to be natural. */
  function Div(a: nat, b: nat): nat
    requires b > 0
  {
    a / b
  }

  lemma SmallerFactor(n: nat, a: int, b: int)
    requires n * a < n * b
    ensures a < b
  {
    if b <= a { Times(b, a, n); }
  }

  lemma DivParts(x: nat, n: nat)
    requires n > 0
    ensures x == n * Div(x, n) + x % n
  {
  }

  /** The number of elements of a tensor. */
  function Numel(shape: seq<nat>): nat {
    if shape == [] then 1 else shape[0] * Numel(shape[1..])
  }
}
