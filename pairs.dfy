/**
 * `(0..n).combinations(2)` from the itertools crate: every pair `i < j < n`,
 * in lexicographic order `(0, 1), (0, 2), …, (0, n-1), (1, 2), …`.
 */
module Pairs {
  /** `(i, i+1), …, (i, n-1)`. */
  function Row(i: nat, n: nat): seq<(nat, nat)>
    requires i < n
  {
    seq(n - i - 1, k requires 0 <= k < n - i - 1 => (i, i + 1 + k))
  }

  /** The pairs whose first index is at least `i`. */
  function CombinationsFrom(i: nat, n: nat): seq<(nat, nat)>
    decreases n - i
  {
    if i + 1 >= n then [] else Row(i, n) + CombinationsFrom(i + 1, n)
  }

  function Combinations2(n: nat): seq<(nat, nat)> {
    CombinationsFrom(0, n)
  }

  predicate LexLess(a: (nat, nat), b: (nat, nat)) {
    a.0 < b.0 || (a.0 == b.0 && a.1 < b.1)
  }

  lemma {:induction false} CombinationsFromMembers(i: nat, n: nat)
    ensures forall t :: 0 <= t < |CombinationsFrom(i, n)| ==>
      i <= CombinationsFrom(i, n)[t].0 < CombinationsFrom(i, n)[t].1 < n
    ensures forall a: nat, b: nat :: i <= a < b < n ==> (a, b) in CombinationsFrom(i, n)
    decreases n - i
  {
    if i + 1 < n {
      CombinationsFromMembers(i + 1, n);
      var rest := CombinationsFrom(i + 1, n);
      assert CombinationsFrom(i, n) == Row(i, n) + rest;
      forall a: nat, b: nat | i <= a < b < n
        ensures (a, b) in CombinationsFrom(i, n)
      {
        if a == i {
          assert Row(i, n)[b - i - 1] == (a, b);
        } else {
          assert (a, b) in rest;
        }
      }
    }
  }

  lemma {:induction false} CombinationsFromSorted(i: nat, n: nat)
    ensures forall s, t :: 0 <= s < t < |CombinationsFrom(i, n)| ==>
      LexLess(CombinationsFrom(i, n)[s], CombinationsFrom(i, n)[t])
    decreases n - i
  {
    if i + 1 < n {
      CombinationsFromSorted(i + 1, n);
      CombinationsFromMembers(i + 1, n);
      var row, rest := Row(i, n), CombinationsFrom(i + 1, n);
      var all := row + rest;
      assert CombinationsFrom(i, n) == all;
      forall s, t | 0 <= s < t < |all|
        ensures LexLess(all[s], all[t])
      {
        if t < |row| {
          assert all[s] == row[s] && all[t] == row[t];
        } else if s < |row| {
          assert all[s] == row[s] && all[t] == rest[t - |row|];
        } else {
          assert all[s] == rest[s - |row|] && all[t] == rest[t - |row|];
        }
      }
    }
  }

  /**
   * `Combinations2(n)` enumerates exactly the pairs `i < j < n`, each once, in
   * strictly increasing lexicographic order.
   */
  lemma Combinations2Spec(n: nat)
    ensures forall t :: 0 <= t < |Combinations2(n)| ==> Combinations2(n)[t].0 < Combinations2(n)[t].1 < n
    ensures forall i: nat, j: nat :: i < j < n ==> (i, j) in Combinations2(n)
    ensures forall s, t :: 0 <= s < t < |Combinations2(n)| ==> LexLess(Combinations2(n)[s], Combinations2(n)[t])
  {
    CombinationsFromMembers(0, n);
    CombinationsFromSorted(0, n);
  }
}
