/** Shifting the cells of a selected rectangle around, in place. */
module GridShift {
  // ---------------------------------------------------------------- offsets

  /** The remainder with the sign of the dividend, as JavaScript has it. */
  function Rem(a: int, b: int): int
    requires b > 0
  {
    if a >= 0 then a % b else -((-a) % b)
  }

  /** The code's way to a remainder that is never negative. */
  function Remap(a: int, n: int): (r: int)
    requires n > 0
    ensures 0 <= r < n && r == a % n
  {
    RemIsMod(a, n);
    Rem(n + Rem(a, n), n)
  }

  lemma {:induction false} Multiple(n: int, k: int)
    requires n > 0 && k >= 1
    ensures n * k >= n
    decreases k
  {
    if k > 1 {
      Multiple(n, k - 1);
      assert n * k == n * (k - 1) + n;
    }
  }

  lemma {:induction false} NextMultiple(n: int, p: int, q: int)
    requires n > 0 && p > q
    ensures n * p >= n * q + n
  {
    Multiple(n, p - q);
    assert n * (p - q) == n * p - n * q;
  }

  lemma {:induction false} ModUnique(a: int, n: int, q: int, r: int)
    requires n > 0 && a == n * q + r && 0 <= r < n
    ensures a % n == r
  {
    var q', r' := a / n, a % n;
    assert a == n * q' + r';
    if q > q' {
      NextMultiple(n, q, q');
    } else if q < q' {
      NextMultiple(n, q', q);
    }
  }

  lemma {:induction false} RemIsMod(a: int, n: int)
    requires n > 0
    ensures Rem(n + Rem(a, n), n) == a % n
  {
    if a >= 0 {
      ModUnique(n + a % n, n, 1, a % n);
    } else {
      var q, r := (-a) / n, (-a) % n;
      assert -a == n * q + r;
      if r == 0 {
        ModUnique(n, n, 1, 0);
        ModUnique(a, n, -q, 0);
      } else {
        ModUnique(n - r, n, 0, n - r);
        assert a == n * (-q - 1) + (n - r);
        ModUnique(a, n, -q - 1, n - r);
      }
    }
  }

  lemma {:induction false} ModAdds(a: int, b: int, n: int)
    requires n > 0
    ensures (a % n + b) % n == (a + b) % n
  {
    var q, p, r := a / n, (a % n + b) / n, (a % n + b) % n;
    assert a + b == n * (q + p) + r;
    ModUnique(a + b, n, q + p, r);
  }

  // ---------------------------------------------------------------- the shift

  /** The selection, by its first and last cell. */
  datatype Rect = Rect(c1: nat, r1: nat, c2: nat, r2: nat)
  {
    function W(): int { c2 - c1 + 1 }

    function H(): int { r2 - r1 + 1 }

    predicate Has(r: int, c: int) { r1 <= r <= r2 && c1 <= c <= c2 }
  }

  /** The place `offset` away from `x` among the `n` places from `start` on, going around. */
  function Around(start: int, n: int, x: int, offset: int): (s: int)
    requires start <= x < start + n
    ensures start <= s < start + n
  {
    start + (x - start + offset) % n
  }

  lemma {:induction false} AroundAdds(start: int, n: int, x: int, a: int, b: int)
    requires start <= x < start + n
    ensures Around(start, n, Around(start, n, x, a), b) == Around(start, n, x, a + b)
  {
    ModAdds(x - start + a, b, n);
  }

  lemma {:induction false} AroundNothing(start: int, n: int, x: int)
    requires start <= x < start + n
    ensures Around(start, n, x, 0) == x
  {
    ModUnique(x - start, n, 0, x - start);
  }

  /** Where a cell of the rectangle comes from. */
  function SourceRow(t: Rect, r: int, ro: int): (s: int)
    requires t.r1 <= r <= t.r2
    ensures t.r1 <= s <= t.r2
  {
    Around(t.r1, t.H(), r, ro)
  }

  function SourceCol(t: Rect, c: int, co: int): (s: int)
    requires t.c1 <= c <= t.c2
    ensures t.c1 <= s <= t.c2
  {
    Around(t.c1, t.W(), c, co)
  }

  type Grid<T> = seq<seq<T>>

  ghost predicate Covers<T>(g: Grid<T>, t: Rect) {
    t.r2 < |g| && forall r :: 0 <= r < |g| ==> t.c2 < |g[r]|
  }

  function Shifted<T>(g: Grid<T>, t: Rect, co: int, ro: int): (s: Grid<T>)
    requires t.r2 < |g| && forall r :: 0 <= r < |g| ==> t.c2 < |g[r]|
    ensures |s| == |g| && forall r :: 0 <= r < |g| ==> |s[r]| == |g[r]|
    ensures forall r, c :: 0 <= r < |g| && 0 <= c < |g[r]| ==>
      s[r][c] == if t.Has(r, c) then g[SourceRow(t, r, ro)][SourceCol(t, c, co)] else g[r][c]
  {
    seq(|g|, r requires 0 <= r < |g| =>
      seq(|g[r]|, c requires 0 <= c < |g[r]| =>
        if t.Has(r, c) then g[SourceRow(t, r, ro)][SourceCol(t, c, co)] else g[r][c]))
  }

  lemma {:induction false} SourcesAdd(t: Rect, r: int, c: int, a: int, b: int, a': int, b': int)
    requires t.Has(r, c)
    ensures t.Has(SourceRow(t, r, b'), SourceCol(t, c, a'))
    ensures SourceRow(t, SourceRow(t, r, b'), b) == SourceRow(t, r, b + b')
    ensures SourceCol(t, SourceCol(t, c, a'), a) == SourceCol(t, c, a + a')
  {
    hide Around;
    AroundAdds(t.r1, t.H(), r, b', b);
    AroundAdds(t.c1, t.W(), c, a', a);
  }

  /** Two shifts come to the shift by the sum of their offsets. */
  lemma {:induction false} ShiftsAdd<T>(g: Grid<T>, t: Rect, a: int, b: int, a': int, b': int)
    requires Covers(g, t)
    ensures Shifted(Shifted(g, t, a, b), t, a', b') == Shifted(g, t, a + a', b + b')
  {
    hide Around, SourceRow, SourceCol;
    var once := Shifted(g, t, a, b);
    var twice, sum := Shifted(once, t, a', b'), Shifted(g, t, a + a', b + b');
    forall r | 0 <= r < |g|
      ensures twice[r] == sum[r]
    {
      forall c | 0 <= c < |g[r]|
        ensures twice[r][c] == sum[r][c]
      {
        if t.Has(r, c) {
          SourcesAdd(t, r, c, a, b, a', b');
          var r', c' := SourceRow(t, r, b'), SourceCol(t, c, a');
          assert twice[r][c] == once[r'][c'] == g[SourceRow(t, r', b)][SourceCol(t, c', a)];
        }
      }
    }
  }

  lemma {:induction false} ShiftByNothing<T>(g: Grid<T>, t: Rect)
    requires Covers(g, t)
    ensures Shifted(g, t, 0, 0) == g
  {
    hide Around;
    var s := Shifted(g, t, 0, 0);
    forall r | 0 <= r < |g|
      ensures s[r] == g[r]
    {
      forall c | 0 <= c < |g[r]|
        ensures s[r][c] == g[r][c]
      {
        if t.Has(r, c) {
          AroundNothing(t.r1, t.H(), r);
          AroundNothing(t.c1, t.W(), c);
        }
      }
    }
  }

  ghost predicate SameShape<T>(g: Grid<T>, g': Grid<T>) {
    |g'| == |g| && forall r :: 0 <= r < |g| ==> |g'[r]| == |g[r]|
  }

  /** Each cell of the rectangle holds what the one `co` columns to the right and `ro` rows down held, around the edges,
      and every other cell is as it was. */
  ghost predicate Moved<T>(was: Grid<T>, now: Grid<T>, t: Rect, co: int, ro: int)
    requires Covers(was, t)
  {
    && SameShape(was, now)
    && (forall r, c {:trigger now[r][c]} :: 0 <= r < |now| && 0 <= c < |now[r]| ==>
          now[r][c] == CellFrom(was, t, r, c, co, ro))
  }

  /** What a cell gets, with the places written out. */
  function CellFrom<T>(was: Grid<T>, t: Rect, r: int, c: int, co: int, ro: int): T
    requires Covers(was, t) && 0 <= r < |was| && 0 <= c < |was[r]|
  {
    if t.r1 <= r <= t.r2 && t.c1 <= c <= t.c2
    then was[t.r1 + (r - t.r1 + ro) % (t.r2 - t.r1 + 1)][t.c1 + (c - t.c1 + co) % (t.c2 - t.c1 + 1)]
    else was[r][c]
  }

  lemma {:induction false} ShiftedIsMoved<T>(g: Grid<T>, t: Rect, co: int, ro: int)
    requires Covers(g, t)
    ensures Moved(g, Shifted(g, t, co, ro), t, co, ro)
  {
    hide Around, SourceRow, SourceCol, CellFrom;
    var now := Shifted(g, t, co, ro);
    forall r, c | 0 <= r < |now| && 0 <= c < |now[r]|
      ensures now[r][c] == CellFrom(g, t, r, c, co, ro)
    {
      CellIs(g, t, r, c, co, ro);
    }
  }

  lemma {:induction false} CellIs<T>(g: Grid<T>, t: Rect, r: int, c: int, co: int, ro: int)
    requires Covers(g, t) && 0 <= r < |g| && 0 <= c < |g[r]|
    ensures Shifted(g, t, co, ro)[r][c] == CellFrom(g, t, r, c, co, ro)
  {
    hide Around, SourceRow, SourceCol, Shifted;
    if t.Has(r, c) {
      SourceIs(t, r, c, co, ro);
    }
  }

  lemma {:induction false} SourceIs(t: Rect, r: int, c: int, co: int, ro: int)
    requires t.Has(r, c)
    ensures SourceRow(t, r, ro) == t.r1 + (r - t.r1 + ro) % (t.r2 - t.r1 + 1)
    ensures SourceCol(t, c, co) == t.c1 + (c - t.c1 + co) % (t.c2 - t.c1 + 1)
  {
  }

  /** So by -1 columns, as for one step to the right: the last cell comes first. */
  lemma {:induction false} OneToTheRight<T>(a: T, b: T, c: T, now: Grid<T>)
    requires Moved([[a, b, c]], now, Rect(0, 0, 2, 0), -1, 0)
    ensures now == [[c, a, b]]
  {
    var was := [[a, b, c]];
    assert |now| == 1 && |now[0]| == |was[0]| == 3;
    assert now[0][0] == was[0][(0 - 1) % 3] && now[0][1] == was[0][(1 - 1) % 3] && now[0][2] == was[0][(2 - 1) % 3];
    assert now[0] == [c, a, b];
  }

  /** Shifting back restores the grid: no cell is lost or doubled. */
  lemma {:induction false} ShiftBack<T>(g: Grid<T>, t: Rect, a: int, b: int)
    requires Covers(g, t)
    ensures Shifted(Shifted(g, t, a, b), t, -a, -b) == g
  {
    ShiftsAdd(g, t, a, b, -a, -b);
    ShiftByNothing(g, t);
  }

  ghost function Contents<T>(data: array2<T>): (g: Grid<T>)
    reads data
    ensures |g| == data.Length0 && forall r :: 0 <= r < |g| ==> |g[r]| == data.Length1
    ensures forall r, c :: 0 <= r < data.Length0 && 0 <= c < data.Length1 ==> g[r][c] == data[r, c]
  {
    seq(data.Length0, r requires 0 <= r < data.Length0 reads data =>
      seq(data.Length1, c requires 0 <= r < data.Length0 && 0 <= c < data.Length1 reads data => data[r, c]))
  }

  ghost predicate SameSize<T>(data: array2<T>, g: Grid<T>, t: Rect) {
    && |g| == data.Length0 && (forall r :: 0 <= r < |g| ==> |g[r]| == data.Length1)
    && t.r2 < data.Length0 && t.c2 < data.Length1
  }

  /** The cell at `r`, `c` has been set. */
  predicate Passed(t: Rect, r: int, c: int, y: int, x: int) {
    t.Has(r, c) && (r < t.r1 + y || (r == t.r1 + y && c < t.c1 + x))
  }

  /** Before cell `x` of row `y` is set: the cache holds original cells, among them all that were overwritten. */
  ghost predicate Midway<T>(data: array2<T>, g: Grid<T>, t: Rect, co: int, ro: int, tmp: map<(int, int), T>, y: int,
                            x: int)
    requires SameSize(data, g, t)
    reads data
  {
    && (forall r, c :: (r, c) in tmp ==> t.Has(r, c) && tmp[(r, c)] == g[r][c])
    && (forall r, c :: Passed(t, r, c, y, x) ==> (r, c) in tmp)
    && (forall r, c :: 0 <= r < data.Length0 && 0 <= c < data.Length1 ==>
          data[r, c] == if Passed(t, r, c, y, x) then g[SourceRow(t, r, ro)][SourceCol(t, c, co)] else g[r][c])
  }

  /** Enters an object at a place of the cache, unless there is one already. */
  method Cache<T>(tmp: map<(int, int), T>, r: int, c: int, obj: T) returns (tmp': map<(int, int), T>, cached: T)
    ensures tmp' == if (r, c) in tmp then tmp else tmp[(r, c) := obj]
    ensures cached == tmp'[(r, c)]
  {
    tmp' := tmp;
    if (r, c) !in tmp' {
      tmp' := tmp'[(r, c) := obj];
    }
    cached := tmp'[(r, c)];
  }

  lemma {:induction false} NextRow(t: Rect, y: int)
    ensures forall r, c :: Passed(t, r, c, y, t.W()) <==> Passed(t, r, c, y + 1, 0)
  {
  }

  /** What is read for a cell is what the grid held there at first, even if the cell has been overwritten. */
  lemma {:induction false} Original<T>(data: array2<T>, g: Grid<T>, t: Rect, co: int, ro: int, tmp: map<(int, int), T>,
                                       y: int, x: int, r: int, c: int)
    requires SameSize(data, g, t)
    requires Midway(data, g, t, co, ro, tmp, y, x) && t.Has(r, c)
    ensures (if (r, c) in tmp then tmp[(r, c)] else data[r, c]) == g[r][c]
  {
    hide Around;
    if (r, c) !in tmp {
      assert !Passed(t, r, c, y, x);
    }
  }

  /** Sets the cell at `x` in row `y` of the rectangle. */
  method SetCell<T>(data: array2<T>, ghost g: Grid<T>, t: Rect, co: int, ro: int, tmp: map<(int, int), T>, y: int,
                    x: int)
    returns (tmp': map<(int, int), T>)
    requires SameSize(data, g, t)
    requires 0 <= y < t.H() && 0 <= x < t.W() && Midway(data, g, t, co, ro, tmp, y, x)
    modifies data
    ensures Midway(data, g, t, co, ro, tmp', y, x + 1)
  {
    var dc, dr := Remap(co + x, t.W()), Remap(ro + y, t.H());
    var preR, preC, postR, postC := t.r1 + y, t.c1 + x, t.r1 + dr, t.c1 + dc;
    var cur, nxt;
    assert ro + y == preR - t.r1 + ro && co + x == preC - t.c1 + co;
    assert postR == SourceRow(t, preR, ro) && postC == SourceCol(t, preC, co);
    Original(data, g, t, co, ro, tmp, y, x, preR, preC);
    Original(data, g, t, co, ro, tmp, y, x, postR, postC);
    tmp', cur := Cache(tmp, preR, preC, data[preR, preC]);
    tmp', nxt := Cache(tmp', postR, postC, data[postR, postC]);
    data[preR, preC] := nxt;
    assert forall r, c :: Passed(t, r, c, y, x + 1) <==> Passed(t, r, c, y, x) || (r == preR && c == preC);
  }

  /** Moves every cell of the rectangle by the given offsets, around the edges. */
  method Shift<T>(data: array2<T>, t: Rect, co: int, ro: int)
    requires t.r1 <= t.r2 && t.c1 <= t.c2 && t.r2 < data.Length0 && t.c2 < data.Length1
    modifies data
    ensures Contents(data) == Shifted(old(Contents(data)), t, co, ro)
    ensures Moved(old(Contents(data)), Contents(data), t, co, ro)
  {
    hide Shifted, Moved;
    ghost var g := Contents(data);
    var tmp: map<(int, int), T> := map[];
    for y := 0 to t.H()
      invariant Midway(data, g, t, co, ro, tmp, y, 0)
    {
      for x := 0 to t.W()
        invariant Midway(data, g, t, co, ro, tmp, y, x)
      {
        tmp := SetCell(data, g, t, co, ro, tmp, y, x);
      }
      NextRow(t, y);
    }
    AllPassed(data, g, t, co, ro, tmp);
    ShiftedIsMoved(g, t, co, ro);
  }

  /** What the button does: every object goes `x` columns to the right and `y` rows down, so each cell gets the object
      that was as far to the left and above. */
  method ShiftBy<T>(data: array2<T>, t: Rect, x: int, y: int)
    requires t.r1 <= t.r2 && t.c1 <= t.c2 && t.r2 < data.Length0 && t.c2 < data.Length1
    modifies data
    ensures Moved(old(Contents(data)), Contents(data), t, -x, -y)
  {
    hide Moved, Shifted;
    Shift(data, t, -x, -y);
  }

  lemma {:induction false} AllPassed<T>(data: array2<T>, g: Grid<T>, t: Rect, co: int, ro: int, tmp: map<(int, int), T>)
    requires SameSize(data, g, t)
    requires Midway(data, g, t, co, ro, tmp, t.H(), 0)
    ensures Contents(data) == Shifted(g, t, co, ro)
  {
    hide Around;
    var now, goal := Contents(data), Shifted(g, t, co, ro);
    forall r | 0 <= r < |g|
      ensures now[r] == goal[r]
    {
      forall c | 0 <= c < |g[r]|
        ensures now[r][c] == goal[r][c]
      {
        assert Passed(t, r, c, t.H(), 0) <==> t.Has(r, c);
      }
    }
  }
}
