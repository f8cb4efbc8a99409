/** The two matching solvers (src/mapof/core/matchings.py and its mapel-core
    copy). The library calls (scipy's linear-sum assignment, the Gurobi model)
    are modelled by their contract: the optimum over all permutations, found here
    by brute-force search. The integer program that solve_matching_matrices builds
    is modelled as a feasibility predicate over its variables, and proved to have
    exactly the permutation optimum as its optimal objective. */
module Matchings {
  import opened Wrappers
  import opened Permutations

  // ---------------------------------------------------------------------
  // Brute-force search over the permutations of 0..n-1

  /** A duplicate-free prefix of values in 0..n-1. */
  predicate Partial(prefix: seq<int>, n: nat) {
    |prefix| <= n && Distinct(prefix) && forall k :: 0 <= k < |prefix| ==> 0 <= prefix[k] < n
  }

  /** q is a permutation of 0..n-1 that starts with prefix. */
  predicate Completes(q: seq<int>, prefix: seq<int>, n: nat) {
    |q| == n && IsPermutation(q) && |prefix| <= n && q[..|prefix|] == prefix
  }

  /** The best completion of prefix, if there is one. */
  function BestCompletion(n: nat, f: seq<int> -> real, prefix: seq<int>): (r: Option<seq<int>>)
    requires Partial(prefix, n)
    ensures r.Some? ==> Completes(r.value, prefix, n)
    ensures forall q :: Completes(q, prefix, n) ==> r.Some? && f(r.value) <= f(q)
    decreases n - |prefix|, n + 1
  {
    if |prefix| == n then
      assert prefix[..|prefix|] == prefix;
      assert forall q :: Completes(q, prefix, n) ==> q == q[..|q|] == prefix;
      Some(prefix)
    else
      Branches(n, f, prefix, 0)
  }

  /** The best completion of prefix whose next value is at least v. */
  function Branches(n: nat, f: seq<int> -> real, prefix: seq<int>, v: nat): (r: Option<seq<int>>)
    requires Partial(prefix, n) && |prefix| < n && v <= n
    ensures r.Some? ==> Completes(r.value, prefix, n)
    ensures forall q :: Completes(q, prefix, n) && v <= q[|prefix|] ==> r.Some? && f(r.value) <= f(q)
    decreases n - |prefix|, n - v
  {
    if v == n then None
    else
      var rest := Branches(n, f, prefix, v + 1);
      if v in prefix then
        NextNotTaken(prefix, n, v);
        rest
      else
        var next := prefix + [v];
        NextCompletes(prefix, n, v);
        var here := BestCompletion(n, f, next);
        if here.None? then rest
        else if rest.Some? && f(rest.value) < f(here.value) then rest
        else here
  }

  /** No completion of prefix continues with a value already in it. */
  lemma NextNotTaken(prefix: seq<int>, n: nat, v: int)
    requires Partial(prefix, n) && |prefix| < n && v in prefix
    ensures forall q :: Completes(q, prefix, n) ==> q[|prefix|] != v
  {
    forall q | Completes(q, prefix, n)
      ensures q[|prefix|] != v
    {
      var i :| 0 <= i < |prefix| && prefix[i] == v;
      assert q[i] == v;
    }
  }

  /** Extending prefix by an unused value keeps it partial; completions of prefix
      that continue with v are exactly the completions of prefix + [v]. */
  lemma NextCompletes(prefix: seq<int>, n: nat, v: int)
    requires Partial(prefix, n) && |prefix| < n && 0 <= v < n && v !in prefix
    ensures Partial(prefix + [v], n)
    ensures forall q :: Completes(q, prefix, n) && q[|prefix|] == v ==> Completes(q, prefix + [v], n)
    ensures forall q :: Completes(q, prefix + [v], n) ==> Completes(q, prefix, n)
  {
    forall q | Completes(q, prefix, n) && q[|prefix|] == v
      ensures Completes(q, prefix + [v], n)
    {
      assert q[..|prefix| + 1] == q[..|prefix|] + [q[|prefix|]];
    }
    forall q | Completes(q, prefix + [v], n)
      ensures Completes(q, prefix, n)
    {
      assert q[..|prefix|] == q[..|prefix| + 1][..|prefix|];
    }
  }

  /** The identity is a permutation of 0..n-1. */
  lemma RangeIsPermutation(n: nat)
    ensures IsPermutation(Range(n)) && |Range(n)| == n
  {
  }

  /** A permutation of 0..n-1 minimising f, by brute force: the contract both
      solvers are asked to meet. */
  function Best(n: nat, f: seq<int> -> real): (p: seq<int>)
    ensures IsPermutation(p) && |p| == n
    ensures forall q :: IsPermutation(q) && |q| == n ==> f(p) <= f(q)
  {
    RangeIsPermutation(n);
    assert Completes(Range(n), [], n);
    var r := BestCompletion(n, f, []);
    assert forall q :: IsPermutation(q) && |q| == n ==> Completes(q, [], n);
    r.value
  }

  // ---------------------------------------------------------------------
  // solve_matching_vectors

  /** The table has n rows of n entries. */
  predicate Square(c: seq<seq<real>>, n: nat) {
    |c| == n && forall i :: 0 <= i < n ==> |c[i]| == n
  }

  /** Σ_i cost_table[i][p[i]] over the first |p| rows; a cell outside the table
      counts 0. */
  function AssignmentCost(c: seq<seq<real>>, p: seq<int>): real {
    if p == [] then 0.0
    else
      var i := |p| - 1;
      AssignmentCost(c, p[..i]) + (if i < |c| && 0 <= p[i] < |c[i]| then c[i][p[i]] else 0.0)
  }

  /** `solve_matching_vectors`: the objective value and the matching, which is a
      permutation whose total cost is the returned objective and is at most that
      of every permutation. */
  function SolveMatchingVectors(c: seq<seq<real>>): (r: (real, seq<int>))
    requires Square(c, |c|)
    ensures IsPermutation(r.1) && |r.1| == |c|
    ensures r.0 == AssignmentCost(c, r.1)
    ensures forall q :: IsPermutation(q) && |q| == |c| ==> r.0 <= AssignmentCost(c, q)
  {
    var p := Best(|c|, q => AssignmentCost(c, q));
    (AssignmentCost(c, p), p)
  }

  /** The permutations of 0..1. */
  lemma PermutationsOfTwo(q: seq<int>)
    requires IsPermutation(q) && |q| == 2
    ensures q == [0, 1] || q == [1, 0]
  {
  }

  /** The permutations of 0..2. */
  lemma PermutationsOfThree(q: seq<int>)
    requires IsPermutation(q) && |q| == 3
    ensures q == [0, 1, 2] || q == [0, 2, 1] || q == [1, 0, 2] ||
            q == [1, 2, 0] || q == [2, 0, 1] || q == [2, 1, 0]
  {
    assert q[0] != q[1] && q[0] != q[2] && q[1] != q[2];
  }

  /** [2, 1, 0] is a permutation of 0..2. */
  lemma ReversalOfThree()
    ensures IsPermutation([2, 1, 0])
  {
  }

  /** [[1, 2], [3, 4]]: both permutations cost 5, so the objective is 5. */
  lemma VectorsTwoByTwo(c: seq<seq<real>>)
    requires c == [[1.0, 2.0], [3.0, 4.0]]
    ensures SolveMatchingVectors(c).0 == 5.0
  {
    var r := SolveMatchingVectors(c);
    PermutationsOfTwo(r.1);
    assert [0, 1][..1] == [0] && [1, 0][..1] == [1];
  }

  /** The cost of a permutation of three rows, written out. */
  lemma AssignmentCostOfThree(c: seq<seq<real>>, p: seq<int>)
    requires Square(c, 3) && IsPermutation(p) && |p| == 3
    ensures AssignmentCost(c, p) == c[0][p[0]] + c[1][p[1]] + c[2][p[2]]
  {
    assert p[..2][..1] == p[..1];
    assert AssignmentCost(c, p[..1]) == c[0][p[0]];
  }

  /** [[4, 1, 1], [2, 0, 5], [3, 2, 3]]: every permutation but [2, 1, 0] costs more than 4. */
  lemma VectorsThreeByThreeCosts(c: seq<seq<real>>, p: seq<int>)
    requires c == [[4.0, 1.0, 1.0], [2.0, 0.0, 5.0], [3.0, 2.0, 3.0]]
    requires IsPermutation(p) && |p| == 3
    ensures p == [2, 1, 0] || AssignmentCost(c, p) > 4.0
  {
    PermutationsOfThree(p);
    AssignmentCostOfThree(c, p);
  }

  /** [[4, 1, 1], [2, 0, 5], [3, 2, 3]]: the unique optimum is [2, 1, 0], of cost 4. */
  lemma VectorsThreeByThree(c: seq<seq<real>>)
    requires c == [[4.0, 1.0, 1.0], [2.0, 0.0, 5.0], [3.0, 2.0, 3.0]]
    ensures SolveMatchingVectors(c) == (4.0, [2, 1, 0])
  {
    var r := SolveMatchingVectors(c);
    ReversalOfThree();
    AssignmentCostOfThree(c, [2, 1, 0]);
    assert r.0 <= 4.0;
    VectorsThreeByThreeCosts(c, r.1);
  }

  // ---------------------------------------------------------------------
  // solve_matching_matrices: the objective and the integer program

  /** Σ_{x < n} g(x). */
  function Sum(n: nat, g: int -> real): real {
    if n == 0 then 0.0 else Sum(n - 1, g) + g(n - 1)
  }

  lemma {:induction false} SumNonnegative(n: nat, g: int -> real)
    requires forall x :: 0 <= x < n ==> g(x) >= 0.0
    ensures Sum(n, g) >= 0.0
  {
    if n > 0 {
      SumNonnegative(n - 1, g);
    }
  }

  /** A sum of terms that are all zero is zero. */
  lemma {:induction false} SumOfZeros(n: nat, g: int -> real)
    requires forall x :: 0 <= x < n ==> g(x) == 0.0
    ensures Sum(n, g) == 0.0
  {
    if n > 0 {
      SumOfZeros(n - 1, g);
    }
  }

  /** A non-negative sum that is zero has only zero terms. */
  lemma {:induction false} SumZeroTerms(n: nat, g: int -> real)
    requires forall x :: 0 <= x < n ==> g(x) >= 0.0
    requires Sum(n, g) == 0.0
    ensures forall x :: 0 <= x < n ==> g(x) == 0.0
  {
    if n > 0 {
      SumNonnegative(n - 1, g);
      SumZeroTerms(n - 1, g);
    }
  }

  /** A sum whose terms are zero except at x0 is the term at x0. */
  lemma {:induction false} SumAtPoint(n: nat, g: int -> real, x0: int)
    requires 0 <= x0 < n
    requires forall x :: 0 <= x < n && x != x0 ==> g(x) == 0.0
    ensures Sum(n, g) == g(x0)
  {
    if n - 1 == x0 {
      SumOfZeros(n - 1, g);
    } else {
      SumAtPoint(n - 1, g, x0);
    }
  }

  /** Each term is 0 or at least 1. */
  predicate Lumpy(n: nat, g: int -> real) {
    forall x :: 0 <= x < n ==> g(x) == 0.0 || g(x) >= 1.0
  }

  /** A sum of terms that are each 0 or at least 1 is itself 0 or at least 1. */
  lemma {:induction false} LumpySum(n: nat, g: int -> real)
    requires Lumpy(n, g)
    ensures Sum(n, g) == 0.0 || Sum(n, g) >= 1.0
  {
    if n > 0 {
      LumpySum(n - 1, g);
      SumNonnegative(n - 1, g);
    }
  }

  /** Terms that are each 0 or at least 1 and sum to 1: exactly one term is 1. */
  lemma {:induction false} SumOne(n: nat, g: int -> real) returns (x0: int)
    requires Lumpy(n, g) && Sum(n, g) == 1.0
    ensures 0 <= x0 < n && g(x0) == 1.0
    ensures forall x :: 0 <= x < n && x != x0 ==> g(x) == 0.0
  {
    SumNonnegative(n - 1, g);
    LumpySum(n - 1, g);
    if g(n - 1) == 0.0 {
      x0 := SumOne(n - 1, g);
    } else {
      SumZeroTerms(n - 1, g);
      x0 := n - 1;
    }
  }

  /** Equal terms give equal sums. */
  lemma {:induction false} SumCongruent(n: nat, g: int -> real, h: int -> real)
    requires forall x :: 0 <= x < n ==> g(x) == h(x)
    ensures Sum(n, g) == Sum(n, h)
  {
    if n > 0 {
      SumCongruent(n - 1, g, h);
    }
  }

  /** matrix[k][i]; both matrices must be at least length × length. */
  predicate AtLeast(m: seq<seq<real>>, n: nat) {
    |m| >= n && forall k :: 0 <= k < n ==> |m[k]| >= n
  }

  /** The two matrices and the inner distance the program is built from. */
  datatype Instance = Instance(m1: seq<seq<real>>, m2: seq<seq<real>>, n: nat, d: (real, real) -> real)

  predicate WellSized(c: Instance) {
    AtLeast(c.m1, c.n) && AtLeast(c.m2, c.n)
  }

  /** The weight of variable P_{k,l,i,j}: the inner distance between
      matrix_1[k][i] and matrix_2[l][j]. */
  function Weight(c: Instance, k: int, l: int, i: int, j: int): real
    requires WellSized(c)
  {
    if 0 <= k < c.n && 0 <= i < c.n && 0 <= l < c.n && 0 <= j < c.n then c.d(c.m1[k][i], c.m2[l][j]) else 0.0
  }

  /** The term of the pair (k, i) in the cost of π. */
  function CostTerm(c: Instance, pi: seq<int>, k: int, i: int): real
    requires WellSized(c)
  {
    if k != i && |pi| == c.n && 0 <= k < c.n && 0 <= i < c.n then Weight(c, k, pi[k], i, pi[i]) else 0.0
  }

  /** Σ_i CostTerm(k, i). */
  function CostRow(c: Instance, pi: seq<int>, k: int): real
    requires WellSized(c)
  {
    Sum(c.n, i => CostTerm(c, pi, k, i))
  }

  /** Σ_{k != i} d(matrix_1[k][i], matrix_2[π(k)][π(i)]): the cost of relabelling
      rows and columns of matrix_2 together by π. */
  function MatrixCost(c: Instance, pi: seq<int>): real
    requires WellSized(c)
  {
    Sum(c.n, k => CostRow(c, pi, k))
  }

  /** With one row and column there is no pair k != i, so every cost is 0. */
  lemma MatrixCostOfOne(c: Instance, pi: seq<int>)
    requires WellSized(c) && c.n == 1
    ensures MatrixCost(c, pi) == 0.0
  {
    assert CostRow(c, pi, 0) == CostTerm(c, pi, 0, 0);
  }

  /** A value of every variable of the program: M_{i,j} and P_{k,l,i,j}. */
  datatype Assignment = Assignment(m: (int, int) -> real, p: (int, int, int, int) -> real)

  predicate Binary(v: real) {
    v == 0.0 || v == 1.0
  }

  /** Σ_j M_{i,j}. */
  function RowSum(a: Assignment, n: nat, i: int): real {
    Sum(n, j => a.m(i, j))
  }

  /** Σ_i M_{i,j}. */
  function ColumnSum(a: Assignment, n: nat, j: int): real {
    Sum(n, i => a.m(i, j))
  }

  /** P_{k,l,i,j} where l != j, else 0. */
  function FromTerm(a: Assignment, k: int, l: int, i: int, j: int): real {
    if l != j then a.p(k, l, i, j) else 0.0
  }

  /** Σ_j FromTerm(k, l, i, j). */
  function FromInner(a: Assignment, n: nat, k: int, l: int, i: int): real {
    Sum(n, j => FromTerm(a, k, l, i, j))
  }

  /** Σ_{l != j} P_{k,l,i,j}. */
  function FromSum(a: Assignment, n: nat, k: int, i: int): real {
    Sum(n, l => FromInner(a, n, k, l, i))
  }

  /** P_{k,l,i,j} where k != i, else 0. */
  function ToTerm(a: Assignment, k: int, l: int, i: int, j: int): real {
    if k != i then a.p(k, l, i, j) else 0.0
  }

  /** Σ_i ToTerm(k, l, i, j). */
  function ToInner(a: Assignment, n: nat, k: int, l: int, j: int): real {
    Sum(n, i => ToTerm(a, k, l, i, j))
  }

  /** Σ_{k != i} P_{k,l,i,j}. */
  function ToSum(a: Assignment, n: nat, l: int, j: int): real {
    Sum(n, k => ToInner(a, n, k, l, j))
  }

  /** The variables and constraints of solve_matching_matrices: binary variables;
      P_{k,l,i,j} <= M_{i,j} and P_{k,l,i,j} <= M_{k,l}; every row and every
      column of M sums to 1; for every k != i the P_{k,l,i,j} over l != j sum to 1,
      and for every l != j the P_{k,l,i,j} over k != i sum to 1. */
  predicate Feasible(n: nat, a: Assignment) {
    (forall i, j :: 0 <= i < n && 0 <= j < n ==> Binary(a.m(i, j))) &&
    (forall k, l, i, j :: 0 <= k < n && 0 <= l < n && 0 <= i < n && 0 <= j < n && k != i && l != j ==>
       Binary(a.p(k, l, i, j)) && a.p(k, l, i, j) <= a.m(i, j) && a.p(k, l, i, j) <= a.m(k, l)) &&
    (forall i :: 0 <= i < n ==> RowSum(a, n, i) == 1.0) &&
    (forall j :: 0 <= j < n ==> ColumnSum(a, n, j) == 1.0) &&
    (forall k, i :: 0 <= k < n && 0 <= i < n && k != i ==> FromSum(a, n, k, i) == 1.0) &&
    (forall l, j :: 0 <= l < n && 0 <= j < n && l != j ==> ToSum(a, n, l, j) == 1.0)
  }

  /** The objective term of P_{k,l,i,j}. */
  function ObjTerm(c: Instance, a: Assignment, k: int, l: int, i: int, j: int): real
    requires WellSized(c)
  {
    if k != i && l != j then Weight(c, k, l, i, j) * a.p(k, l, i, j) else 0.0
  }

  function ObjJ(c: Instance, a: Assignment, k: int, l: int, i: int): real
    requires WellSized(c)
  {
    Sum(c.n, j => ObjTerm(c, a, k, l, i, j))
  }

  function ObjI(c: Instance, a: Assignment, k: int, l: int): real
    requires WellSized(c)
  {
    Sum(c.n, i => ObjJ(c, a, k, l, i))
  }

  function ObjL(c: Instance, a: Assignment, k: int): real
    requires WellSized(c)
  {
    Sum(c.n, l => ObjI(c, a, k, l))
  }

  /** The objective: Σ weight · P over the variables, in the loop order k, l, i, j. */
  function Objective(c: Instance, a: Assignment): real
    requires WellSized(c)
  {
    Sum(c.n, k => ObjL(c, a, k))
  }

  /** The values the variables take for a relabelling π. */
  predicate Encodes(n: nat, a: Assignment, pi: seq<int>)
    requires |pi| == n
  {
    (forall i, j :: 0 <= i < n && 0 <= j < n ==> a.m(i, j) == if j == pi[i] then 1.0 else 0.0) &&
    (forall k, l, i, j :: 0 <= k < n && 0 <= l < n && 0 <= i < n && 0 <= j < n && k != i && l != j ==>
       a.p(k, l, i, j) == if l == pi[k] && j == pi[i] then 1.0 else 0.0)
  }

  /** Rows 0..r-1 of M each hold exactly one 1, in column pi[i]. */
  lemma {:induction false} RowsChoose(n: nat, a: Assignment, r: nat) returns (pi: seq<int>)
    requires Feasible(n, a) && r <= n
    ensures |pi| == r
    ensures forall i :: 0 <= i < r ==> 0 <= pi[i] < n
    ensures forall i, j :: 0 <= i < r && 0 <= j < n ==> a.m(i, j) == if j == pi[i] then 1.0 else 0.0
  {
    if r == 0 {
      pi := [];
    } else {
      var front := RowsChoose(n, a, r - 1);
      var i := r - 1;
      assert RowSum(a, n, i) == 1.0;
      var j0 := SumOne(n, j => a.m(i, j));
      pi := front + [j0];
      forall i', j | 0 <= i' < r && 0 <= j < n
        ensures a.m(i', j) == if j == pi[i'] then 1.0 else 0.0
      {
        if i' < r - 1 {
          assert pi[i'] == front[i'];
        } else {
          assert (j => a.m(i, j))(j) == a.m(i', j);
        }
      }
    }
  }

  /** In a feasible solution M is the permutation matrix of some π, and the
      P variable of k != i is 1 exactly at l = π(k), j = π(i). */
  lemma FeasibleIsPermutation(n: nat, a: Assignment) returns (pi: seq<int>)
    requires Feasible(n, a)
    ensures IsPermutation(pi) && |pi| == n && Encodes(n, a, pi)
  {
    pi := RowsChoose(n, a, n);
    forall i1, i2 | 0 <= i1 < i2 < n
      ensures pi[i1] != pi[i2]
    {
      var j := pi[i1];
      assert ColumnSum(a, n, j) == 1.0;
      var column := i => a.m(i, j);
      var i0 := SumOne(n, column);
      assert column(i1) == 1.0;
      assert column(i2) == 0.0;
    }
    forall k, l, i, j | 0 <= k < n && 0 <= l < n && 0 <= i < n && 0 <= j < n && k != i && l != j
      ensures a.p(k, l, i, j) == if l == pi[k] && j == pi[i] then 1.0 else 0.0
    {
      if l == pi[k] && j == pi[i] {
        FromSumAtPoint(n, a, pi, k, i);
      }
    }
  }

  /** For k != i, the from-sum of P collapses to the entry at (π(k), π(i)). */
  lemma FromSumAtPoint(n: nat, a: Assignment, pi: seq<int>, k: int, i: int)
    requires Feasible(n, a) && IsPermutation(pi) && |pi| == n
    requires forall i, j :: 0 <= i < n && 0 <= j < n ==> a.m(i, j) == if j == pi[i] then 1.0 else 0.0
    requires 0 <= k < n && 0 <= i < n && k != i
    ensures a.p(k, pi[k], i, pi[i]) == 1.0
  {
    forall l | 0 <= l < n && l != pi[k]
      ensures FromInner(a, n, k, l, i) == 0.0
    {
      SumOfZeros(n, j => FromTerm(a, k, l, i, j));
    }
    SumAtPoint(n, l => FromInner(a, n, k, l, i), pi[k]);
    SumAtPoint(n, j => FromTerm(a, k, pi[k], i, j), pi[i]);
    assert FromSum(a, n, k, i) == 1.0;
  }

  /** The variable values a relabelling π induces. */
  function Canonical(pi: seq<int>): Assignment {
    Assignment(
      (i, j) => if 0 <= i < |pi| && j == pi[i] then 1.0 else 0.0,
      (k, l, i, j) => if 0 <= k < |pi| && 0 <= i < |pi| && k != i && l == pi[k] && j == pi[i] then 1.0 else 0.0)
  }

  /** Every relabelling π gives a feasible solution that encodes it. */
  lemma CanonicalFeasible(n: nat, pi: seq<int>)
    requires IsPermutation(pi) && |pi| == n
    ensures Feasible(n, Canonical(pi)) && Encodes(n, Canonical(pi), pi)
  {
    var a := Canonical(pi);
    forall i | 0 <= i < n
      ensures RowSum(a, n, i) == 1.0
    {
      SumAtPoint(n, j => a.m(i, j), pi[i]);
    }
    forall j | 0 <= j < n
      ensures ColumnSum(a, n, j) == 1.0
    {
      var i0 := PositionOf(pi, j);
      SumAtPoint(n, i => a.m(i, j), i0);
    }
    forall k, i | 0 <= k < n && 0 <= i < n && k != i
      ensures FromSum(a, n, k, i) == 1.0
    {
      forall l | 0 <= l < n && l != pi[k]
        ensures FromInner(a, n, k, l, i) == 0.0
      {
        SumOfZeros(n, j => FromTerm(a, k, l, i, j));
      }
      SumAtPoint(n, l => FromInner(a, n, k, l, i), pi[k]);
      SumAtPoint(n, j => FromTerm(a, k, pi[k], i, j), pi[i]);
    }
    forall l, j | 0 <= l < n && 0 <= j < n && l != j
      ensures ToSum(a, n, l, j) == 1.0
    {
      var k0 := PositionOf(pi, l);
      var i0 := PositionOf(pi, j);
      forall k | 0 <= k < n && k != k0
        ensures ToInner(a, n, k, l, j) == 0.0
      {
        SumOfZeros(n, i => ToTerm(a, k, l, i, j));
      }
      SumAtPoint(n, k => ToInner(a, n, k, l, j), k0);
      SumAtPoint(n, i => ToTerm(a, k0, l, i, j), i0);
    }
  }

  /** Under an encoding of π, the j-sum of the objective keeps only j = π(i). */
  lemma ObjJValue(c: Instance, a: Assignment, pi: seq<int>, k: int, l: int, i: int)
    requires WellSized(c) && IsPermutation(pi) && |pi| == c.n && Encodes(c.n, a, pi)
    requires 0 <= k < c.n && 0 <= l < c.n && 0 <= i < c.n
    ensures ObjJ(c, a, k, l, i) == if l == pi[k] then CostTerm(c, pi, k, i) else 0.0
  {
    if l == pi[k] && k != i {
      SumAtPoint(c.n, j => ObjTerm(c, a, k, l, i, j), pi[i]);
    } else {
      SumOfZeros(c.n, j => ObjTerm(c, a, k, l, i, j));
    }
  }

  /** Under an encoding of π, the i-sum of the objective for row k and column l. */
  lemma ObjIValue(c: Instance, a: Assignment, pi: seq<int>, k: int, l: int)
    requires WellSized(c) && IsPermutation(pi) && |pi| == c.n && Encodes(c.n, a, pi)
    requires 0 <= k < c.n && 0 <= l < c.n
    ensures ObjI(c, a, k, l) == if l == pi[k] then CostRow(c, pi, k) else 0.0
  {
    forall i | 0 <= i < c.n
      ensures ObjJ(c, a, k, l, i) == if l == pi[k] then CostTerm(c, pi, k, i) else 0.0
    {
      ObjJValue(c, a, pi, k, l, i);
    }
    if l == pi[k] {
      SumCongruent(c.n, i => ObjJ(c, a, k, l, i), i => CostTerm(c, pi, k, i));
    } else {
      SumOfZeros(c.n, i => ObjJ(c, a, k, l, i));
    }
  }

  /** The objective of any solution that encodes π is the cost of π. */
  lemma ObjectiveIsCost(c: Instance, a: Assignment, pi: seq<int>)
    requires WellSized(c) && IsPermutation(pi) && |pi| == c.n && Encodes(c.n, a, pi)
    ensures Objective(c, a) == MatrixCost(c, pi)
  {
    forall k | 0 <= k < c.n
      ensures ObjL(c, a, k) == CostRow(c, pi, k)
    {
      forall l | 0 <= l < c.n
        ensures ObjI(c, a, k, l) == if l == pi[k] then CostRow(c, pi, k) else 0.0
      {
        ObjIValue(c, a, pi, k, l);
      }
      SumAtPoint(c.n, l => ObjI(c, a, k, l), pi[k]);
    }
    SumCongruent(c.n, k => ObjL(c, a, k), k => CostRow(c, pi, k));
  }

  /** The Gurobi status that matters here. */
  datatype SolverStatus = Optimal | NotOptimal

  /** `solve_matching_matrices`: when the solver reports an optimum, its objective
      value, the least cost over all relabellings π; otherwise None. */
  function SolveMatchingMatrices(c: Instance, status: SolverStatus): (r: Option<real>)
    requires WellSized(c)
    ensures r.Some? <==> status == Optimal
    ensures r.Some? ==> exists pi :: IsPermutation(pi) && |pi| == c.n && r.value == MatrixCost(c, pi)
    ensures r.Some? ==> forall pi :: IsPermutation(pi) && |pi| == c.n ==> r.value <= MatrixCost(c, pi)
  {
    if status == Optimal then
      var best := Best(c.n, pi => MatrixCost(c, pi));
      Some(MatrixCost(c, best))
    else
      None
  }

  /** The returned objective is the optimum of the integer program: no feasible
      solution is cheaper, and some feasible solution attains it. */
  lemma MatricesSolveProgram(c: Instance)
    requires WellSized(c)
    ensures var r := SolveMatchingMatrices(c, Optimal).value;
      (forall a :: Feasible(c.n, a) ==> r <= Objective(c, a)) &&
      exists a :: Feasible(c.n, a) && Objective(c, a) == r
  {
    var r := SolveMatchingMatrices(c, Optimal).value;
    forall a | Feasible(c.n, a)
      ensures r <= Objective(c, a)
    {
      var pi := FeasibleIsPermutation(c.n, a);
      ObjectiveIsCost(c, a, pi);
    }
    var best := Best(c.n, pi => MatrixCost(c, pi));
    CanonicalFeasible(c.n, best);
    ObjectiveIsCost(c, Canonical(best), best);
  }

  /** `single_l1` on one-element arrays: |x - y|. */
  function SingleL1(x: real, y: real): real {
    if x >= y then x - y else y - x
  }

  /** The cost of a relabelling of two rows, written out. */
  lemma CostOfTwo(c: Instance, pi: seq<int>)
    requires WellSized(c) && c.n == 2 && IsPermutation(pi) && |pi| == 2
    ensures MatrixCost(c, pi) == c.d(c.m1[0][1], c.m2[pi[0]][pi[1]]) + c.d(c.m1[1][0], c.m2[pi[1]][pi[0]])
  {
    assert CostRow(c, pi, 0) == CostTerm(c, pi, 0, 1);
    assert CostRow(c, pi, 1) == CostTerm(c, pi, 1, 0);
  }

  /** The cost of a relabelling of three rows, written out. */
  lemma CostOfThree(c: Instance, pi: seq<int>)
    requires WellSized(c) && c.n == 3 && IsPermutation(pi) && |pi| == 3
    ensures MatrixCost(c, pi) ==
      c.d(c.m1[0][1], c.m2[pi[0]][pi[1]]) + c.d(c.m1[0][2], c.m2[pi[0]][pi[2]]) +
      c.d(c.m1[1][0], c.m2[pi[1]][pi[0]]) + c.d(c.m1[1][2], c.m2[pi[1]][pi[2]]) +
      c.d(c.m1[2][0], c.m2[pi[2]][pi[0]]) + c.d(c.m1[2][1], c.m2[pi[2]][pi[1]])
  {
    assert CostRow(c, pi, 0) == CostTerm(c, pi, 0, 1) + CostTerm(c, pi, 0, 2);
    assert CostRow(c, pi, 1) == CostTerm(c, pi, 1, 0) + CostTerm(c, pi, 1, 2);
    assert CostRow(c, pi, 2) == CostTerm(c, pi, 2, 0) + CostTerm(c, pi, 2, 1);
  }

  /** The 2 × 2 test: swapping the two labels costs 2, keeping them costs 4. */
  lemma MatricesTwoByTwo(c: Instance)
    requires c == Instance([[0.0, 1.0], [2.0, 0.0]], [[0.0, 4.0], [1.0, 0.0]], 2, SingleL1)
    ensures SolveMatchingMatrices(c, Optimal) == Some(2.0)
  {
    var r := SolveMatchingMatrices(c, Optimal).value;
    var swap := [1, 0];
    assert IsPermutation(swap);
    CostOfTwo(c, swap);
    assert r <= 2.0;
    var pi :| IsPermutation(pi) && |pi| == 2 && r == MatrixCost(c, pi);
    PermutationsOfTwo(pi);
    CostOfTwo(c, pi);
  }

  /** The 3 × 3 test: every relabelling but [2, 1, 0] costs more than 2. */
  lemma MatricesThreeByThreeCosts(c: Instance, pi: seq<int>)
    requires c == Instance([[0.0, 2.0, 1.0], [3.0, 0.0, 4.0], [1.0, 5.0, 0.0]],
                           [[0.0, 5.0, 1.0], [3.0, 0.0, 4.0], [1.0, 2.0, 0.0]], 3, SingleL1)
    requires IsPermutation(pi) && |pi| == 3
    ensures if pi == [2, 1, 0] then MatrixCost(c, pi) == 2.0 else MatrixCost(c, pi) > 2.0
  {
    PermutationsOfThree(pi);
    CostOfThree(c, pi);
  }

  /** The 3 × 3 test: the relabelling [2, 1, 0] costs 2, every other one more. */
  lemma MatricesThreeByThree(c: Instance)
    requires c == Instance([[0.0, 2.0, 1.0], [3.0, 0.0, 4.0], [1.0, 5.0, 0.0]],
                           [[0.0, 5.0, 1.0], [3.0, 0.0, 4.0], [1.0, 2.0, 0.0]], 3, SingleL1)
    ensures SolveMatchingMatrices(c, Optimal) == Some(2.0)
  {
    var r := SolveMatchingMatrices(c, Optimal).value;
    ReversalOfThree();
    MatricesThreeByThreeCosts(c, [2, 1, 0]);
    var pi :| IsPermutation(pi) && |pi| == 3 && r == MatrixCost(c, pi);
    MatricesThreeByThreeCosts(c, pi);
  }
}
