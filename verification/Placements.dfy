/** Placements of queens that do not attack each other, and the boards that have one. */
module Placements {

  /** A placement gives the column of the queen of each row. Two queens attack along columns and diagonals. */
  predicate Attacks(p: seq<nat>, r: nat, s: nat)
    requires r < s < |p|
  {
    p[r] == p[s] || p[r] + (s - r) == p[s] || p[s] + (s - r) == p[r]
  }

  predicate Peaceful(n: nat, p: seq<nat>) {
    && (forall r :: 0 <= r < |p| ==> p[r] < n)
    && (forall r, s :: 0 <= r < s < |p| ==> !Attacks(p, r, s))
  }

  /** The peaceful placements of `n` queens on the first `n` rows that extend `p`. */
  function Completions(n: nat, p: seq<nat>): (r: set<seq<nat>>)
    requires |p| <= n
    decreases n - |p|, n + 1
  {
    if |p| == n then (if Peaceful(n, p) then {p} else {}) else CompletionsBelow(n, p, n)
  }

  /** Those whose next column is below `bound`. */
  function CompletionsBelow(n: nat, p: seq<nat>, bound: nat): (r: set<seq<nat>>)
    requires |p| < n && bound <= n
    decreases n - |p|, bound
  {
    if bound == 0 then {} else CompletionsBelow(n, p, bound - 1) + Completions(n, p + [bound - 1])
  }

  /** The enumeration is exact. */
  lemma {:induction false} CompletionsExact(n: nat, p: seq<nat>, q: seq<nat>)
    requires |p| <= n
    ensures q in Completions(n, p) <==> |q| == n && p <= q && Peaceful(n, q)
    decreases n - |p|, n + 1
  {
    if |p| == n {
      assert |q| == n && p <= q ==> p == q;
    } else {
      CompletionsBelowExact(n, p, n, q);
    }
  }

  lemma {:induction false} CompletionsBelowExact(n: nat, p: seq<nat>, bound: nat, q: seq<nat>)
    requires |p| < n && bound <= n
    ensures q in CompletionsBelow(n, p, bound) <==> |q| == n && p <= q && q[|p|] < bound && Peaceful(n, q)
    decreases n - |p|, bound
  {
    if bound > 0 {
      CompletionsBelowExact(n, p, bound - 1, q);
      CompletionsExact(n, p + [bound - 1], q);
      if |q| == n {
        assert p + [bound - 1] <= q <==> p <= q && q[|p|] == bound - 1;
      }
    }
  }

  // Which boards have a placement at all.

  /** Knight's moves: the odd columns from left to right, then the even ones. */
  function Stairs(k: nat): (p: seq<nat>)
    ensures |p| == 2 * k
    ensures forall r :: 0 <= r < 2 * k ==> p[r] == if r < k then 2 * r + 1 else 2 * (r - k)
  {
    seq(2 * k, r requires 0 <= r < 2 * k => if r < k then 2 * r + 1 else 2 * (r - k))
  }

  lemma StairsPeaceful(k: nat)
    requires k % 3 != 1
    ensures Peaceful(2 * k, Stairs(k))
  {
    var p := Stairs(k);
    forall r, s | 0 <= r < s < |p| ensures !Attacks(p, r, s) {
      if r < k <= s {
        assert 3 * (r - (s - k)) != k - 1;
      }
    }
  }

  /** Row r of the upper half of a board with 2k rows: the knight's moves start in column k - 1 and wrap around. */
  function TurnedColumn(k: nat, r: nat): nat
    requires r < k
  {
    if 2 * r <= k then 2 * r + k - 1 else 2 * r - k - 1
  }

  /** ... and the lower half is the upper one turned by half a circle. */
  function Turned(k: nat): (p: seq<nat>)
    requires k >= 2
    ensures |p| == 2 * k
    ensures forall r :: 0 <= r < 2 * k ==> p[r] == if r < k then TurnedColumn(k, r) else 2 * k - 1 - TurnedColumn(k, 2 * k - 1 - r)
  {
    seq(2 * k, r requires 0 <= r < 2 * k => if r < k then TurnedColumn(k, r) else 2 * k - 1 - TurnedColumn(k, 2 * k - 1 - r))
  }

  lemma SameHalf(k: nat, j: nat, r: nat, s: nat)
    requires k == 3 * j + 1 && r < s < k
    ensures TurnedColumn(k, r) != TurnedColumn(k, s)
    ensures TurnedColumn(k, r) + (s - r) != TurnedColumn(k, s) && TurnedColumn(k, s) + (s - r) != TurnedColumn(k, r)
  {
  }

  lemma AcrossHalves(k: nat, j: nat, r: nat, q: nat)
    requires k == 3 * j + 1 && k >= 4 && r < k && q < k
    ensures TurnedColumn(k, r) + TurnedColumn(k, q) != 2 * k - 1
    ensures TurnedColumn(k, r) + TurnedColumn(k, q) != r + q
    ensures TurnedColumn(k, r) + TurnedColumn(k, q) + r + q != 4 * k - 2
  {
  }

  lemma TurnedPeaceful(k: nat)
    requires k >= 4 && k % 3 == 1
    ensures Peaceful(2 * k, Turned(k))
  {
    var p, j := Turned(k), k / 3;
    forall r, s | 0 <= r < s < |p| ensures !Attacks(p, r, s) {
      if s < k {
        SameHalf(k, j, r, s);
      } else if k <= r {
        SameHalf(k, j, 2 * k - 1 - s, 2 * k - 1 - r);
      } else {
        AcrossHalves(k, j, r, 2 * k - 1 - s);
      }
    }
  }

  predicate OffDiagonal(p: seq<nat>) {
    forall r :: 0 <= r < |p| ==> p[r] != r
  }

  /** An even board of four rows or more has a placement that leaves the long diagonal free. */
  function Even(k: nat): (p: seq<nat>)
    requires k >= 2
  {
    if k % 3 == 1 then Turned(k) else Stairs(k)
  }

  lemma EvenPeaceful(k: nat)
    requires k >= 2
    ensures |Even(k)| == 2 * k && Peaceful(2 * k, Even(k)) && OffDiagonal(Even(k))
  {
    if k % 3 == 1 {
      TurnedPeaceful(k);
    } else {
      StairsPeaceful(k);
    }
  }

  /** One row and column more, with a queen where the long diagonal goes on. */
  lemma CornerPeaceful(p: seq<nat>)
    requires Peaceful(|p|, p) && OffDiagonal(p)
    ensures Peaceful(|p| + 1, p + [|p|])
  {
    var n, q := |p|, p + [|p|];
    forall r, s | 0 <= r < s < |q| ensures !Attacks(q, r, s) {
      if s < n {
        assert !Attacks(p, r, s);
      }
    }
  }

  lemma LargeSolvable(n: nat) returns (p: seq<nat>)
    requires n >= 4
    ensures |p| == n && Peaceful(n, p)
  {
    var k := n / 2;
    EvenPeaceful(k);
    p := Even(k);
    if n % 2 == 1 {
      CornerPeaceful(p);
      p := p + [2 * k];
    }
  }

  lemma SmallUnsolvable(n: nat, p: seq<nat>)
    requires (n == 2 || n == 3) && |p| == n
    ensures !Peaceful(n, p)
  {
    assert (forall r :: 0 <= r < n ==> p[r] < n) ==> Attacks(p, 0, 1) || (n == 3 && (Attacks(p, 1, 2) || Attacks(p, 0, 2)));
  }

  /** There is a placement on every board except those of two and three rows. */
  lemma SolvableIff(n: nat)
    ensures Completions(n, []) == {} <==> n == 2 || n == 3
  {
    if n == 2 || n == 3 {
      forall p | p in Completions(n, []) ensures false {
        CompletionsExact(n, [], p);
        SmallUnsolvable(n, p);
      }
    } else {
      var p: seq<nat> := if n == 0 then [] else [0];
      if n >= 4 {
        p := LargeSolvable(n);
      }
      CompletionsExact(n, [], p);
    }
  }
}
