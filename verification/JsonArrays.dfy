/** The loops of the array filters: trimming, pairing and moving items for a diff, and splicing an array for a patch. */
module JsonArrays {
  import opened Wrappers
  import Lcs
  import opened Splices
  import opened JsonPlan
  import opened JsonDiff

  method SharesItem(o: seq<Json>, f: seq<Json>) returns (shares: bool)
    ensures shares <==> ShareItem(o, f)
  {
    for i := 0 to |o|
      invariant forall k, j :: 0 <= k < i && 0 <= j < |f| ==> !Identical(o[k], f[j])
    {
      for j := 0 to |f|
        invariant forall k, m :: 0 <= k < i && 0 <= m < |f| ==> !Identical(o[k], f[m])
        invariant forall m :: 0 <= m < j ==> !Identical(o[i], f[m])
      {
        if Identical(o[i], f[j]) {
          return true;
        }
      }
    }
    return false;
  }

  /** Neither the head, nor the tail, nor the common subsequence of the middle takes over old item `x`. */
  predicate Left(c: nat, l: nat, s: nat, xs: seq<nat>, x: nat) { l <= x < c - s && x - l !in xs }

  lemma {:induction false} SourceNotLeft(o: seq<Json>, f: seq<Json>, byPosition: bool, l: nat, s: nat, xs: seq<nat>,
                                         ys: seq<nat>, i: nat)
    requires l == Head(o, f, byPosition, 0) && s == Tail(o, f, byPosition, l, 0)
    requires (xs, ys) == Lcs.Backtrack(Middle(o, f, byPosition, l), |o| - l - s, |f| - l - s)
    requires i < |f| && BasePlan(o, f, byPosition)[i].Some?
    ensures !Left(|o|, l, s, xs, BasePlan(o, f, byPosition)[i].value)
  {
    hide Head, Tail, Lcs.Backtrack, Lcs.Len, MatchItems;
    SourceMatches(o, f, byPosition, i);
  }

  lemma {:induction false} LeftOrSource(o: seq<Json>, f: seq<Json>, byPosition: bool, l: nat, s: nat, xs: seq<nat>,
                                        ys: seq<nat>, x: nat)
    requires l == Head(o, f, byPosition, 0) && s == Tail(o, f, byPosition, l, 0)
    requires (xs, ys) == Lcs.Backtrack(Middle(o, f, byPosition, l), |o| - l - s, |f| - l - s)
    requires x < |o| && !Left(|o|, l, s, xs, x)
    ensures Used(BasePlan(o, f, byPosition), x)
  {
    hide Head, Tail, Lcs.Backtrack, Lcs.Len, MatchItems;
    var src := BasePlan(o, f, byPosition);
    if x < l {
      assert src[x] == Some(x);
    } else if x >= |o| - s {
      assert src[x - |o| + |f|] == Some(x);
    } else {
      var q :| 0 <= q < |xs| && xs[q] == x - l;
      Lcs.BacktrackIsCommon(Middle(o, f, byPosition, l), |o| - l - s, |f| - l - s);
      CommonAt(Middle(o, f, byPosition, l), |o| - l - s, |f| - l - s, xs, ys, q);
      IndexOfDistinct(Middle(o, f, byPosition, l), |o| - l - s, |f| - l - s, xs, ys, q);
      assert src[ys[q] + l] == Some(x);
    }
  }

  lemma {:induction false} UnusedIsLeft(o: seq<Json>, f: seq<Json>, byPosition: bool, l: nat, s: nat, xs: seq<nat>,
                                        ys: seq<nat>)
    requires l == Head(o, f, byPosition, 0) && s == Tail(o, f, byPosition, l, 0)
    requires (xs, ys) == Lcs.Backtrack(Middle(o, f, byPosition, l), |o| - l - s, |f| - l - s)
    ensures forall x: nat :: x in UnusedSet(BasePlan(o, f, byPosition), |o|) <==> x < |o| && Left(|o|, l, s, xs, x)
  {
    hide Head, Tail, Lcs.Backtrack, Lcs.Len, MatchItems, BasePlan, Left, Middle;
    var src := BasePlan(o, f, byPosition);
    forall x: nat | x < |o|
      ensures Used(src, x) <==> !Left(|o|, l, s, xs, x)
    {
      if !Left(|o|, l, s, xs, x) {
        LeftOrSource(o, f, byPosition, l, s, xs, ys, x);
      } else {
        forall i | 0 <= i < |src|
          ensures src[i] != Some(x)
        {
          if src[i].Some? {
            SourceNotLeft(o, f, byPosition, l, s, xs, ys, i);
          }
        }
      }
    }
  }

  lemma {:induction false} IndexOfDistinct(m: Lcs.Matcher, i: nat, j: nat, xs: seq<nat>, ys: seq<nat>, q: nat)
    requires Lcs.Common(m, i, j, xs, ys) && q < |ys|
    ensures IndexOf(ys, ys[q]) == Some(q)
  {
    var p := IndexOf(ys, ys[q]).value;
    if p < q {
      CommonOrder(m, i, j, xs, ys, p, q);
    } else if q < p {
      CommonOrder(m, i, j, xs, ys, q, p);
    }
  }

  /** The lengths of the common head and tail. */
  method CommonEnds(o: seq<Json>, f: seq<Json>, byPosition: bool) returns (l: nat, s: nat)
    ensures l == Head(o, f, byPosition, 0) && s == Tail(o, f, byPosition, l, 0)
  {
    hide MatchItems;
    l := 0;
    while MatchItems(o, f, byPosition, l, l)
      invariant l <= |o| && l <= |f| && Head(o, f, byPosition, l) == Head(o, f, byPosition, 0)
      decreases |o| - l
    {
      InBounds(o, f, byPosition, l, l);
      l := l + 1;
    }
    s := 0;
    while l + s < |o| && l + s < |f| && MatchItems(o, f, byPosition, |o| - 1 - s, |f| - 1 - s)
      invariant l + s <= |o| && l + s <= |f| && Tail(o, f, byPosition, l, s) == Tail(o, f, byPosition, l, 0)
    {
      s := s + 1;
    }
  }

  /** Gives every right item without a source the first removed item that matches it. */
  method MoveItems(o: seq<Json>, f: seq<Json>, byPosition: bool, src: seq<Option<nat>>, removed: seq<nat>)
    returns (p: Plan)
    requires |src| == |f|
    ensures p == AddMoves(o, f, byPosition, Plan(src, {}), removed, 0)
  {
    hide MatchItems;
    p := Plan(src, {});
    var y := removed;
    for t := 0 to |f|
      invariant |p.src| == |f|
      invariant AddMoves(o, f, byPosition, p, y, t) == AddMoves(o, f, byPosition, Plan(src, {}), removed, 0)
    {
      if p.src[t].None? {
        var q := 0;
        while q < |y| && !MatchItems(o, f, byPosition, y[q], t)
          invariant q <= |y| && FindMove(o, f, byPosition, y, t, 0) == FindMove(o, f, byPosition, y, t, q)
        {
          q := q + 1;
        }
        if q < |y| {
          p := Plan(p.src[t := Some(y[q])], p.moved + {t});
          y := RemoveAt(y, q);
        }
      }
    }
  }

  /** Pairs the items of two arrays. */
  method PlanArrays(o: seq<Json>, f: seq<Json>) returns (p: Plan, whole: bool)
    ensures p == MakePlan(o, f) && whole == Whole(o, f)
    ensures ValidPlan(p, |o|, |f|)
  {
    hide MatchItems, ValidPlan, Head, Tail, AddMoves, Lcs.Backtrack, SourceAt, ShareItem, UnusedSet, Left;
    MakePlanValid(o, f);
    var shares := SharesItem(o, f);
    var byPosition := |o| > 0 && |f| > 0 && !shares;
    var l, s := CommonEnds(o, f, byPosition);
    whole := l + s == |o| == |f|;
    var m := Middle(o, f, byPosition, l);
    var xs, ys := Lcs.Get(m, |o| - l - s, |f| - l - s);
    var src: seq<Option<nat>> := seq(|f|, i requires 0 <= i < |f| => SourceAt(|o|, |f|, l, s, xs, ys, i));
    assert src == BasePlan(o, f, byPosition);
    UnusedIsLeft(o, f, byPosition, l, s, xs, ys);
    var y := LeftItems(|o|, l, s, xs, UnusedSet(src, |o|));
    p := MoveItems(o, f, byPosition, src, y);
  }

  lemma {:induction false} InBounds(o: seq<Json>, f: seq<Json>, byPosition: bool, i: nat, j: nat)
    requires MatchItems(o, f, byPosition, i, j)
    ensures i < |o| && j < |f|
  {
  }

  /** The old positions that are left, in order. */
  method LeftItems(c: nat, l: nat, s: nat, xs: seq<nat>, ghost left: set<nat>) returns (y: seq<nat>)
    requires l + s <= c && forall x: nat :: x in left <==> x < c && Left(c, l, s, xs, x)
    ensures y == Ascending(left, c)
  {
    y := [];
    NothingBelow(left, 0, l);
    for t := l to c - s
      invariant y == Ascending(left, t)
    {
      if t - l !in xs {
        y := y + [t];
      }
    }
    NothingBelow(left, c - s, c);
  }

  lemma {:induction false} NothingBelow(s: set<nat>, n: nat, n': nat)
    requires n <= n' && forall x :: n <= x < n' ==> x !in s
    ensures Ascending(s, n') == Ascending(s, n)
    decreases n'
  {
    if n < n' {
      NothingBelow(s, n, n' - 1);
    }
  }

  /** `moved` holds the items that the removals from the `n`-th on move, by their new position. */
  ghost predicate MovedFrom(items: seq<Json>, gone: map<nat, Gone>, idx: seq<nat>, n: nat, moved: map<nat, Json>)
    requires forall q :: 0 <= q < |idx| ==> idx[q] in gone && idx[q] < |items|
  {
    && (forall t :: t in moved ==> exists q :: n <= q < |idx| && gone[idx[q]] == MoveTo(t))
    && (forall q :: n <= q < |idx| && gone[idx[q]].MoveTo? ==>
          gone[idx[q]].dest in moved && moved[gone[idx[q]].dest] == items[idx[q]])
  }

  /** The emptied positions exist, and items move to different places. */
  ghost predicate Placed(items: seq<Json>, gone: map<nat, Gone>) {
    && (forall x :: x in gone ==> x < |items|)
    && (forall x, y :: x in gone && y in gone && x != y && gone[x].MoveTo? && gone[y].MoveTo? ==>
      gone[x].dest != gone[y].dest)
  }

  lemma {:induction false} FitsPlaced(items: seq<Json>, at: map<nat, Delta>, gone: map<nat, Gone>)
    requires Fits(items, at, gone)
    ensures Placed(items, gone)
  {
    hide Inserts, Ascending;
  }

  lemma {:induction false} EachListed(gone: map<nat, Gone>, n: nat, x: nat)
    requires x in gone && x < n
    ensures exists q :: 0 <= q < |Ascending(gone.Keys, n)| && Ascending(gone.Keys, n)[q] == x
  {
    hide Ascending;
    AscendingFacts(gone.Keys, n);
    assert x in SetOf(Ascending(gone.Keys, n));
  }

  /** What was kept is what `Moved` lists. */
  lemma {:induction false} KeptIsMoved(items: seq<Json>, gone: map<nat, Gone>, moved: map<nat, Json>, t: nat)
    requires Placed(items, gone) && MovedFrom(items, gone, Ascending(gone.Keys, |items|), 0, moved) && t in moved
    ensures t in Moved(items, gone, |items|) && moved[t] == Moved(items, gone, |items|)[t]
  {
    hide Moved, Ascending;
    MovedFacts(items, gone, |items|);
    var idx := Ascending(gone.Keys, |items|);
    var q :| 0 <= q < |idx| && gone[idx[q]] == MoveTo(t);
    assert idx[q] in gone;
  }

  /** What `Moved` lists was kept. */
  lemma {:induction false} MovedIsKept(items: seq<Json>, gone: map<nat, Gone>, moved: map<nat, Json>, t: nat)
    requires Placed(items, gone) && MovedFrom(items, gone, Ascending(gone.Keys, |items|), 0, moved)
    requires t in Moved(items, gone, |items|)
    ensures t in moved
  {
    hide Moved, Ascending;
    MovedFacts(items, gone, |items|);
    var x :| x in gone && x < |items| && gone[x] == MoveTo(t);
    EachListed(gone, |items|, x);
  }

  lemma {:induction false} AllMoved(items: seq<Json>, gone: map<nat, Gone>, moved: map<nat, Json>)
    requires Placed(items, gone) && MovedFrom(items, gone, Ascending(gone.Keys, |items|), 0, moved)
    ensures moved == Moved(items, gone, |items|)
  {
    hide Moved, Ascending, Placed, MovedFrom;
    forall t | t in moved
      ensures t in Moved(items, gone, |items|) && moved[t] == Moved(items, gone, |items|)[t]
    {
      KeptIsMoved(items, gone, moved, t);
    }
    forall t | t in Moved(items, gone, |items|)
      ensures t in moved
    {
      MovedIsKept(items, gone, moved, t);
    }
  }

  lemma {:induction false} IncreasingPrefix(idx: seq<nat>, m: nat, k: nat)
    requires Increasing(idx, m + |idx|) && k <= |idx|
    ensures Increasing(idx[..k], m + k)
    decreases |idx|
  {
    var last := |idx| - 1;
    if k == |idx| {
      assert idx[..k] == idx;
    } else {
      IncreasingWiden(idx[..last], idx[last], m + last);
      IncreasingPrefix(idx[..last], m, k);
      assert idx[..last][..k] == idx[..k];
    }
  }

  lemma {:induction false} RemoveStep(a: seq<Json>, idx: seq<nat>, n: nat)
    requires n < |idx| && Increasing(idx[..n + 1], |a|)
    ensures idx[n] < |a| && Increasing(idx[..n], idx[n]) && Increasing(idx[..n], |a| - 1)
    ensures RemoveAll(a, idx[..n + 1]) == RemoveAll(RemoveAt(a, idx[n]), idx[..n])
  {
    assert idx[..n + 1][..n] == idx[..n] && idx[..n + 1][n] == idx[n];
    IncreasingWiden(idx[..n], idx[n], |a| - 1);
  }

  lemma {:induction false} MovedStep(items: seq<Json>, gone: map<nat, Gone>, idx: seq<nat>, n: nat,
                                     moved: map<nat, Json>)
    requires forall q :: 0 <= q < |idx| ==> idx[q] in gone && idx[q] < |items|
    requires forall q, q' :: 0 <= q < q' < |idx| ==> idx[q] != idx[q']
    requires Placed(items, gone)
    requires n < |idx| && MovedFrom(items, gone, idx, n + 1, moved)
    ensures MovedFrom(items, gone, idx, n,
      if gone[idx[n]].MoveTo? then moved[gone[idx[n]].dest := items[idx[n]]] else moved)
  {
  }

  /** Splices out the positions in `gone`, last one first, and keeps the items that only move. */
  method TakeOut(items: seq<Json>, at: map<nat, Delta>, gone: map<nat, Gone>)
    returns (a: seq<Json>, moved: map<nat, Json>)
    requires Fits(items, at, gone)
    ensures a == Emptied(items, gone)
    ensures moved == Moved(items, gone, |items|)
  {
    hide Moved, Inserts, Ascending, RemoveAll, MovedFrom, Increasing, Fits, Placed;
    FitsPlaced(items, at, gone);
    var idx := Ascending(gone.Keys, |items|);
    AscendingFacts(gone.Keys, |items|);
    IncreasingDistinct(idx, |items|);
    a, moved := items, map[];
    var n := |idx|;
    assert idx[..n] == idx;
    ghost var bound: nat := |items|;
    NothingMoved(items, gone, idx);
    while n > 0
      invariant n <= |idx| && bound <= |items| && bound <= |a|
      invariant Increasing(idx[..n], bound) && Increasing(idx[..n], |a|)
      invariant RemoveAll(a, idx[..n]) == RemoveAll(items, idx)
      invariant forall i :: 0 <= i < bound ==> a[i] == items[i]
      invariant MovedFrom(items, gone, idx, n, moved)
    {
      n := n - 1;
      RemoveStep(a, idx, n);
      RemoveStep(items[..bound], idx, n);
      MovedStep(items, gone, idx, n, moved);
      var r := idx[n];
      var value := a[r];
      a := RemoveAt(a, r);
      if gone[r].MoveTo? {
        moved := moved[gone[r].dest := value];
      }
      bound := r;
    }
    NoneToRemove(a, idx);
    AllMoved(items, gone, moved);
  }

  lemma {:induction false} NothingMoved(items: seq<Json>, gone: map<nat, Gone>, idx: seq<nat>)
    requires forall q :: 0 <= q < |idx| ==> idx[q] in gone && idx[q] < |items|
    ensures MovedFrom(items, gone, idx, |idx|, map[])
  {
  }

  lemma {:induction false} NoneToRemove(a: seq<Json>, idx: seq<nat>)
    ensures Increasing(idx[..0], |a|) && RemoveAll(a, idx[..0]) == a
  {
  }

  lemma {:induction false} InsertOrder(ins: map<nat, Json>, m: nat)
    requires forall t :: t in ins ==> t < m + |ins|
    ensures var idx := Ascending(ins.Keys, m + |ins|);
      |idx| == |ins| && Increasing(idx, m + |idx|) && forall x :: x in idx ==> x in ins
  {
    hide Ascending, Increasing;
    AscendingLength(ins.Keys, m + |ins|);
    AscendingFacts(ins.Keys, m + |ins|);
    assert |ins| == |ins.Keys|;
  }

  lemma {:induction false} InsertStep(base: seq<Json>, ins: map<nat, Json>, idx: seq<nat>, k: nat)
    requires k < |idx| && Increasing(idx, |base| + |idx|) && forall x :: x in idx ==> x in ins
    ensures Increasing(idx[..k], |base| + k) && Increasing(idx[..k + 1], |base| + k + 1) && idx[k] <= |base| + k
    ensures InsertAll(base, ins, idx[..k + 1]) == InsertAt(InsertAll(base, ins, idx[..k]), idx[k], ins[idx[k]])
  {
    IncreasingPrefix(idx, |base|, k);
    IncreasingPrefix(idx, |base|, k + 1);
    assert idx[..k + 1][..k] == idx[..k] && idx[..k + 1][k] == idx[k];
  }

  lemma {:induction false} InsertNone(base: seq<Json>, ins: map<nat, Json>, idx: seq<nat>)
    ensures Increasing(idx[..0], |base|) && InsertAll(base, ins, idx[..0]) == base
  {
  }

  /** Splices in the values at their final positions, first one first. */
  method PutIn(base: seq<Json>, ins: map<nat, Json>) returns (a: seq<Json>)
    requires forall t :: t in ins ==> t < |base| + |ins|
    ensures a == Filled(base, ins)
  {
    hide Ascending, Increasing, InsertAll;
    var idx := Ascending(ins.Keys, |base| + |ins|);
    InsertOrder(ins, |base|);
    a := base;
    InsertNone(base, ins, idx);
    for k := 0 to |idx|
      invariant Increasing(idx[..k], |base| + k)
      invariant a == InsertAll(base, ins, idx[..k])
    {
      InsertStep(base, ins, idx, k);
      a := InsertAt(a, idx[k], ins[idx[k]]);
    }
    assert idx[..|idx|] == idx;
  }

  /** Empties the positions in `gone`, and then fills those of additions and moved items. */
  method Rearrange(items: seq<Json>, at: map<nat, Delta>, gone: map<nat, Gone>) returns (a: seq<Json>)
    requires Fits(items, at, gone)
    ensures a == Rearranged(items, at, gone)
  {
    hide Moved, Ascending, Emptied, Filled;
    var moved: map<nat, Json>;
    a, moved := TakeOut(items, at, gone);
    var ins := (map t | t in at && at[t].Addition? :: at[t].value) + moved;
    assert ins == Inserts(items, at, gone);
    a := PutIn(a, ins);
  }
}
