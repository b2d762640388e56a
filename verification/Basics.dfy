/** What several modules need: an option type, sums, counting marks, and products and remainders kept
    away from the solver's nonlinear arithmetic. */
module Basics {
  datatype Option<T> = None | Some(value: T)

  // ---------------------------------------------------------------- sums and marks

  function Sum(s: seq<real>): real {
    if s == [] then 0.0 else Sum(s[..|s| - 1]) + s[|s| - 1]
  }

  /** How many places are marked. */
  function Count(mask: seq<bool>): nat {
    if mask == [] then 0 else Count(mask[..|mask| - 1]) + (if mask[|mask| - 1] then 1 else 0)
  }

  // ---------------------------------------------------------------- products

  function CeilDiv(a: nat, b: nat): nat
    requires b >= 1
  {
    (a + b - 1) / b
  }

  lemma CeilDivAbove(k: nat, a: nat, b: nat)
    requires b >= 1 && k * b < a
    ensures CeilDiv(a, b) > k
  {
    var q := (a + b - 1) / b;
    assert q * b >= a;
    if q < k { MultiplesApart(q, k, b); }
  }

  function Times(a: nat, b: nat): nat { a * b }

  lemma {:induction false} TimesGrows(j: nat, n: nat, s: nat)
    requires j < n
    ensures Times(j, s) + s <= Times(n, s)
    decreases n
  {
    assert Times(n, s) == Times(n - 1, s) + s;
    if j < n - 1 { TimesGrows(j, n - 1, s); }
  }

  /** Every index below n blocks of s lies in exactly one block. */
  lemma {:induction false} Locate(i: nat, n: nat, s: nat) returns (j: nat)
    requires i < Times(n, s)
    ensures j < n && Times(j, s) <= i < Times(j, s) + s
    ensures forall k: nat :: k < n && Times(k, s) <= i < Times(k, s) + s ==> k == j
  {
    assert Times(n, s) == Times(n - 1, s) + s;
    if Times(n - 1, s) <= i {
      j := n - 1;
      forall k: nat | k < n - 1 ensures Times(k, s) + s <= Times(n - 1, s) { TimesGrows(k, n - 1, s); }
    } else {
      j := Locate(i, n - 1, s);
    }
  }

  // ---------------------------------------------------------------- remainders

  /** `a % n`, by taking n away while it fits. */
  function Rem(a: nat, n: nat): (r: nat)
    requires n > 0
    ensures r < n
  {
    if a < n then a else Rem(a - n, n)
  }

  lemma RemIsModulo(a: nat, n: nat)
    requires n > 0
    ensures Rem(a, n) == a % n
  {
    var q := RemQuotient(a, n);
    DivisionUnique(a / n, a % n, q, Rem(a, n), n, a);
  }

  lemma {:induction false} RemQuotient(a: nat, n: nat) returns (q: nat)
    requires n > 0
    ensures a == q * n + Rem(a, n)
  {
    if a < n {
      q := 0;
    } else {
      q := RemQuotient(a - n, n);
      assert (q + 1) * n == q * n + n;
      q := q + 1;
    }
  }

  lemma DivisionUnique(p: nat, r: nat, q: nat, s: nat, n: nat, a: nat)
    requires a == p * n + r == q * n + s && r < n && s < n
    ensures p == q && r == s
  {
    if p < q { MultiplesApart(p, q, n); }
    if q < p { MultiplesApart(q, p, n); }
  }

  lemma MultiplesApart(p: nat, q: nat, n: nat)
    requires p < q
    ensures p * n + n <= q * n
  {
    assert q * n == p * n + (q - p) * n;
    assert (q - p) * n == n + (q - p - 1) * n;
  }

  method Modulo(a: nat, n: nat) returns (r: nat)
    requires n > 0
    ensures r == Rem(a, n)
  {
    RemIsModulo(a, n);
    r := a % n;
  }
}
