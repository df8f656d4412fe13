/** The longest common subsequence of two lists under an arbitrary match of their positions: the table of lengths
    and the walk back through it. */
module Lcs {

  /** Whether item `i` of the first list matches item `j` of the second one. */
  type Matcher = (nat, nat) -> bool

  function Max(a: nat, b: nat): nat { if a > b then a else b }

  /** The entry of the table for the first `i` and the first `j` items. */
  function Len(m: Matcher, i: nat, j: nat): nat {
    if i == 0 || j == 0 then 0
    else if m(i - 1, j - 1) then Len(m, i - 1, j - 1) + 1
    else Max(Len(m, i - 1, j), Len(m, i, j - 1))
  }

  function Backtrack(m: Matcher, i: nat, j: nat): (r: (seq<nat>, seq<nat>))
    ensures |r.0| == |r.1|
  {
    if i == 0 || j == 0 then ([], [])
    else if m(i - 1, j - 1) then
      var (xs, ys) := Backtrack(m, i - 1, j - 1);
      (xs + [i - 1], ys + [j - 1])
    else if Len(m, i, j - 1) > Len(m, i - 1, j) then Backtrack(m, i, j - 1)
    else Backtrack(m, i - 1, j)
  }

  /** Two strictly increasing index lists of equal length, below `i` and `j`, whose pairs all match. */
  ghost predicate Common(m: Matcher, i: nat, j: nat, xs: seq<nat>, ys: seq<nat>) {
    && |xs| == |ys|
    && (xs != [] ==>
          var x, y := xs[|xs| - 1], ys[|ys| - 1];
          x < i && y < j && m(x, y) && Common(m, x, y, xs[..|xs| - 1], ys[..|ys| - 1]))
  }

  lemma {:induction false} CommonWiden(m: Matcher, i: nat, j: nat, i': nat, j': nat, xs: seq<nat>, ys: seq<nat>)
    requires Common(m, i, j, xs, ys) && i <= i' && j <= j'
    ensures Common(m, i', j', xs, ys)
  {
  }

  /** One more item lengthens the subsequence by at most one, and never shortens it. */
  lemma {:induction false} LenSteps(m: Matcher, i: nat, j: nat)
    ensures i > 0 ==> Len(m, i - 1, j) <= Len(m, i, j) <= Len(m, i - 1, j) + 1
    ensures j > 0 ==> Len(m, i, j - 1) <= Len(m, i, j) <= Len(m, i, j - 1) + 1
    decreases i + j
  {
    if i > 0 && j > 0 {
      LenSteps(m, i - 1, j);
      LenSteps(m, i, j - 1);
      LenSteps(m, i - 1, j - 1);
    }
  }

  lemma {:induction false} LenMonotone(m: Matcher, i: nat, j: nat, i': nat, j': nat)
    requires i <= i' && j <= j'
    ensures Len(m, i, j) <= Len(m, i', j')
    decreases i' + j'
  {
    LenSteps(m, i', j');
    if i < i' {
      LenMonotone(m, i, j, i' - 1, j');
    } else if j < j' {
      LenMonotone(m, i, j, i', j' - 1);
    }
  }

  /** No common subsequence is longer than the table says. */
  lemma {:induction false} LenIsMaximal(m: Matcher, i: nat, j: nat, xs: seq<nat>, ys: seq<nat>)
    requires Common(m, i, j, xs, ys)
    ensures |xs| <= Len(m, i, j)
    decreases |xs|
  {
    if xs != [] {
      var x, y := xs[|xs| - 1], ys[|ys| - 1];
      LenIsMaximal(m, x, y, xs[..|xs| - 1], ys[..|ys| - 1]);
      LenMonotone(m, x + 1, y + 1, i, j);
    }
  }

  lemma {:induction false} BacktrackIsCommon(m: Matcher, i: nat, j: nat)
    ensures Common(m, i, j, Backtrack(m, i, j).0, Backtrack(m, i, j).1)
    ensures |Backtrack(m, i, j).0| == Len(m, i, j)
  {
    if i == 0 || j == 0 {
    } else if m(i - 1, j - 1) {
      BacktrackIsCommon(m, i - 1, j - 1);
      var (xs, ys) := Backtrack(m, i - 1, j - 1);
      assert (xs + [i - 1])[..|xs|] == xs && (ys + [j - 1])[..|ys|] == ys;
    } else if Len(m, i, j - 1) > Len(m, i - 1, j) {
      BacktrackIsCommon(m, i, j - 1);
      CommonWiden(m, i, j - 1, i, j, Backtrack(m, i, j - 1).0, Backtrack(m, i, j - 1).1);
    } else {
      BacktrackIsCommon(m, i - 1, j);
      CommonWiden(m, i - 1, j, i, j, Backtrack(m, i - 1, j).0, Backtrack(m, i - 1, j).1);
    }
  }

  // ---------------------------------------------------------------- the code

  method LengthMatrix(m: Matcher, len1: nat, len2: nat) returns (matrix: array2<nat>)
    ensures fresh(matrix) && matrix.Length0 == len1 + 1 && matrix.Length1 == len2 + 1
    ensures forall x, y {:trigger matrix[x, y]} :: 0 <= x <= len1 && 0 <= y <= len2 ==> matrix[x, y] == Len(m, x, y)
  {
    matrix := new nat[len1 + 1, len2 + 1]((_, _) => 0);
    for x := 1 to len1 + 1
      invariant forall u, v {:trigger matrix[u, v]} :: 0 <= u < x && 0 <= v <= len2 ==> matrix[u, v] == Len(m, u, v)
      invariant forall u, v {:trigger matrix[u, v]} :: x <= u <= len1 && 0 <= v <= len2 ==> matrix[u, v] == 0
    {
      for y := 1 to len2 + 1
        invariant forall u, v {:trigger matrix[u, v]} :: 0 <= u < x && 0 <= v <= len2 ==> matrix[u, v] == Len(m, u, v)
        invariant forall v {:trigger matrix[x, v]} :: 0 <= v < y ==> matrix[x, v] == Len(m, x, v)
        invariant forall u, v {:trigger matrix[u, v]} :: x < u <= len1 && 0 <= v <= len2 ==> matrix[u, v] == 0
      {
        matrix[x, y] := if m(x - 1, y - 1) then matrix[x - 1, y - 1] + 1 else Max(matrix[x - 1, y], matrix[x, y - 1]);
      }
    }
  }

  method WalkBack(matrix: array2<nat>, m: Matcher, i: nat, j: nat) returns (indices1: seq<nat>, indices2: seq<nat>)
    requires i < matrix.Length0 && j < matrix.Length1
    requires forall x, y {:trigger matrix[x, y]} :: 0 <= x < matrix.Length0 && 0 <= y < matrix.Length1 ==>
      matrix[x, y] == Len(m, x, y)
    ensures (indices1, indices2) == Backtrack(m, i, j)
  {
    if i == 0 || j == 0 {
      return [], [];
    }
    if m(i - 1, j - 1) {
      indices1, indices2 := WalkBack(matrix, m, i - 1, j - 1);
      return indices1 + [i - 1], indices2 + [j - 1];
    }
    if matrix[i, j - 1] > matrix[i - 1, j] {
      indices1, indices2 := WalkBack(matrix, m, i, j - 1);
    } else {
      indices1, indices2 := WalkBack(matrix, m, i - 1, j);
    }
  }

  method Get(m: Matcher, len1: nat, len2: nat) returns (indices1: seq<nat>, indices2: seq<nat>)
    ensures (indices1, indices2) == Backtrack(m, len1, len2)
    ensures Common(m, len1, len2, indices1, indices2)
    ensures forall xs, ys :: Common(m, len1, len2, xs, ys) ==> |xs| <= |indices1|
  {
    var matrix := LengthMatrix(m, len1, len2);
    indices1, indices2 := WalkBack(matrix, m, len1, len2);
    BacktrackIsCommon(m, len1, len2);
    forall xs, ys | Common(m, len1, len2, xs, ys)
      ensures |xs| <= |indices1|
    {
      LenIsMaximal(m, len1, len2, xs, ys);
    }
  }
  // ---------------------------------------------------------------- common ends

  /** The match relation behind the first `l` items of both lists. */
  function From(m: Matcher, l: nat): Matcher { (x: nat, y: nat) => m(x + l, y + l) }

  lemma {:induction false} LenBounds(m: Matcher, i: nat, j: nat)
    ensures Len(m, i, j) <= i && Len(m, i, j) <= j
  {
    if i > 0 && j > 0 {
      LenBounds(m, i - 1, j - 1);
      LenBounds(m, i - 1, j);
      LenBounds(m, i, j - 1);
    }
  }

  /** Two first items that match belong to some longest common subsequence. */
  lemma {:induction false} LenFirst(m: Matcher, i: nat, j: nat)
    requires i > 0 && j > 0 && m(0, 0)
    ensures Len(m, i, j) == 1 + Len(From(m, 1), i - 1, j - 1)
    decreases i + j
  {
    if i == 1 || j == 1 {
      LenBounds(m, i, j);
      LenMonotone(m, 1, 1, i, j);
      assert Len(m, 1, 1) == 1;
    } else if m(i - 1, j - 1) {
      LenFirst(m, i - 1, j - 1);
    } else {
      LenFirst(m, i - 1, j);
      LenFirst(m, i, j - 1);
    }
  }

  lemma {:induction false} LenHead(m: Matcher, l: nat, i: nat, j: nat)
    requires l <= i && l <= j && forall k: nat :: k < l ==> m(k, k)
    ensures Len(m, i, j) == l + Len(From(m, l), i - l, j - l)
    decreases l
  {
    hide Len;
    if l == 0 {
      SameLen(m, From(m, 0), i, j);
    } else {
      var m1 := From(m, 1);
      assert forall k: nat :: k < l - 1 ==> m1(k, k) == m(k + 1, k + 1);
      LenFirst(m, i, j);
      LenHead(m1, l - 1, i - 1, j - 1);
      SameLen(From(m1, l - 1), From(m, l), i - l, j - l);
    }
  }

  lemma {:induction false} SameLen(m: Matcher, m': Matcher, i: nat, j: nat)
    requires forall x: nat, y: nat :: x < i && y < j ==> m(x, y) == m'(x, y)
    ensures Len(m, i, j) == Len(m', i, j)
  {
    if i > 0 && j > 0 {
      SameLen(m, m', i - 1, j - 1);
      SameLen(m, m', i - 1, j);
      SameLen(m, m', i, j - 1);
    }
  }

  lemma {:induction false} LenTail(m: Matcher, s: nat, i: nat, j: nat)
    requires s <= i && s <= j && forall x: nat, y: nat :: x < i && y < j && i - x == j - y <= s ==> m(x, y)
    ensures Len(m, i, j) == s + Len(m, i - s, j - s)
  {
    if s > 0 {
      LenTail(m, s - 1, i, j);
      assert m(i - s, j - s);
    }
  }
}
