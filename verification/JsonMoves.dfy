/** Which items of two arrays are paired: as many as possible stay in order, and no other pair is missed. */
module JsonMoves {
  import opened Wrappers
  import Lcs
  import opened Splices
  import opened JsonPlan
  import opened JsonDiff

  // ---------------------------------------------------------------- the items that stay

  function Matches(o: seq<Json>, f: seq<Json>): Lcs.Matcher {
    (x: nat, y: nat) => MatchItems(o, f, ByPosition(o, f), x, y)
  }

  /** The positions of the right array whose items stay in order. */
  function KeptSet(p: Plan): set<nat> { set i: nat | i < |p.src| && p.Kept(i) }

  lemma {:induction false} AddMovesKeeps(o: seq<Json>, f: seq<Json>, byPosition: bool, p: Plan, y: seq<nat>, t: nat)
    requires |p.src| == |f| && t <= |f| && forall i :: i in p.moved ==> i < |f| && p.src[i].Some?
    ensures KeptSet(AddMoves(o, f, byPosition, p, y, t)) == KeptSet(p)
    decreases |f| - t
  {
    hide MatchItems;
    if t < |f| && p.src[t].None? && FindMove(o, f, byPosition, y, t, 0).Some? {
      var q := FindMove(o, f, byPosition, y, t, 0).value;
      var p' := Plan(p.src[t := Some(y[q])], p.moved + {t});
      AddMovesKeeps(o, f, byPosition, p', RemoveAt(y, q), t + 1);
      assert forall i: nat :: i < |f| ==> p'.Kept(i) == p.Kept(i);
    } else if t < |f| {
      AddMovesKeeps(o, f, byPosition, p, y, t + 1);
    }
  }

  predicate Between(a: nat, b: nat, i: nat) { a <= i < b }

  function Range(a: nat, b: nat): set<nat> { set i: nat | i < b && Between(a, b, i) }

  lemma {:induction false} RangeSize(a: nat, b: nat)
    requires a <= b
    ensures |Range(a, b)| == b - a
    decreases b
  {
    if a < b {
      RangeSize(a, b - 1);
      assert Range(a, b) == Range(a, b - 1) + {b - 1};
    } else {
      assert Range(a, b) == {};
    }
  }

  /** The indices in `ys`, moved up by `l`. */
  function Raised(ys: seq<nat>, l: nat): set<nat> { set y | y in ys :: y + l }

  lemma {:induction false} RaisedIn(ys: seq<nat>, l: nat, i: nat)
    ensures i in Raised(ys, l) <==> i >= l && i - l in ys
  {
    if i >= l && i - l in ys {
      assert i == (i - l) + l;
    }
  }

  lemma {:induction false} RaisedSnoc(ys: seq<nat>, y: nat, l: nat)
    ensures Raised(ys + [y], l) == Raised(ys, l) + {y + l}
  {
    hide Raised;
    forall i: nat
      ensures i in Raised(ys + [y], l) <==> i in Raised(ys, l) + {y + l}
    {
      RaisedIn(ys + [y], l, i);
      RaisedIn(ys, l, i);
      assert i >= l ==> (i - l in ys + [y] <==> i - l in ys || i - l == y);
    }
  }

  lemma {:induction false} RaisedSize(m: Lcs.Matcher, i: nat, j: nat, xs: seq<nat>, ys: seq<nat>, l: nat)
    requires Lcs.Common(m, i, j, xs, ys)
    ensures |Raised(ys, l)| == |ys| && forall y :: y in ys ==> y < j
  {
    if ys == [] {
      assert Raised(ys, l) == {};
    } else {
      hide Raised;
      var n := |ys| - 1;
      RaisedSize(m, xs[n], ys[n], xs[..n], ys[..n], l);
      assert ys == ys[..n] + [ys[n]];
      RaisedSnoc(ys[..n], ys[n], l);
      RaisedIn(ys[..n], l, ys[n] + l);
    }
  }

  /** What has a source in a plan with this head, this tail and these pairs. */
  lemma {:induction false} SourcesAre(c: nat, h: nat, l: nat, s: nat, xs: seq<nat>, ys: seq<nat>, src: seq<Option<nat>>)
    requires l + s <= c && l + s <= h && |xs| == |ys| && |src| == h && forall y :: y in ys ==> y < h - l - s
    requires forall i :: 0 <= i < h ==> src[i] == SourceAt(c, h, l, s, xs, ys, i)
    ensures KeptSet(Plan(src, {})) == Range(0, l) + Raised(ys, l) + Range(h - s, h)
    ensures Range(0, l) !! Raised(ys, l) && Range(0, l) + Raised(ys, l) !! Range(h - s, h)
  {
    var all := Range(0, l) + Raised(ys, l) + Range(h - s, h);
    forall i: nat
      ensures i in KeptSet(Plan(src, {})) <==> i in all
    {
      RaisedIn(ys, l, i);
      assert i < h ==> (i in KeptSet(Plan(src, {})) <==> SourceAt(c, h, l, s, xs, ys, i).Some?);
    }
    forall i | i in Raised(ys, l)
      ensures l <= i < h - s
    {
      RaisedIn(ys, l, i);
    }
  }

  /** The base plan pairs the head, the tail, and a longest common subsequence of what is between them. */
  lemma {:induction false} BaseSize(o: seq<Json>, f: seq<Json>, byPosition: bool)
    ensures var l := Head(o, f, byPosition, 0);
      var s := Tail(o, f, byPosition, l, 0);
      |KeptSet(Plan(BasePlan(o, f, byPosition), {}))|
        == l + s + Lcs.Len(Middle(o, f, byPosition, l), |o| - l - s, |f| - l - s)
  {
    hide Head, Tail, Lcs.Backtrack, Lcs.Len, Lcs.Common, MatchItems, SourceAt, KeptSet, Range, Raised;
    var l := Head(o, f, byPosition, 0);
    var s := Tail(o, f, byPosition, l, 0);
    var m := Middle(o, f, byPosition, l);
    var c, h := |o| - l - s, |f| - l - s;
    var (xs, ys) := Lcs.Backtrack(m, c, h);
    Lcs.BacktrackIsCommon(m, c, h);
    RaisedSize(m, c, h, xs, ys, l);
    RangeSize(0, l);
    RangeSize(|f| - s, |f|);
    SourcesAre(|o|, |f|, l, s, xs, ys, BasePlan(o, f, byPosition));
  }

  /** Cutting off a common head and a common tail loses nothing. */
  lemma {:induction false} TrimmedLen(o: seq<Json>, f: seq<Json>)
    ensures var byPosition := ByPosition(o, f);
      var l := Head(o, f, byPosition, 0);
      var s := Tail(o, f, byPosition, l, 0);
      Lcs.Len(Matches(o, f), |o|, |f|) == l + s + Lcs.Len(Middle(o, f, byPosition, l), |o| - l - s, |f| - l - s)
  {
    hide Head, Tail, Lcs.Len, MatchItems, ByPosition;
    var byPosition := ByPosition(o, f);
    var l := Head(o, f, byPosition, 0);
    var s := Tail(o, f, byPosition, l, 0);
    var m := Matches(o, f);
    forall x: nat, y: nat | x < |o| && y < |f| && |o| - x == |f| - y <= s
      ensures m(x, y)
    {
      TailMatches(o, f, byPosition, l, 0, |o| - 1 - x);
    }
    Lcs.LenTail(m, s, |o|, |f|);
    Lcs.LenHead(m, l, |o| - s, |f| - s);
    Lcs.SameLen(Lcs.From(m, l), Middle(o, f, byPosition, l), |o| - s - l, |f| - s - l);
  }

  /** As many items stay as a longest common subsequence of the two arrays has. */
  lemma {:induction false} StayingIsLcs(o: seq<Json>, f: seq<Json>)
    ensures |KeptSet(MakePlan(o, f))| == Lcs.Len(Matches(o, f), |o|, |f|)
  {
    hide BasePlan, AddMoves, Unused, Head, Tail, Lcs.Len, KeptSet, ByPosition;
    var byPosition := ByPosition(o, f);
    var src := BasePlan(o, f, byPosition);
    AddMovesKeeps(o, f, byPosition, Plan(src, {}), Unused(src, |o|), 0);
    BaseSize(o, f, byPosition);
    TrimmedLen(o, f);
  }

  // ---------------------------------------------------------------- the items that move

  /** Up to `t`, every right item that does not stay takes the first left item that matches it, except for those that
      stay or have been taken by an earlier item, and has no source only if there is none. */
  ghost predicate Greedy(o: seq<Json>, f: seq<Json>, byPosition: bool, p: Plan, t: nat)
    requires |p.src| == |f|
  {
    forall i: nat, x: nat ::
      (i < t && i < |f| && !p.Kept(i) && MatchItems(o, f, byPosition, x, i) && Earlier(p, x, i)) ==> Taken(p, x, i)
  }

  /** Right item `i` would rather have left item `x` as its source. */
  predicate Earlier(p: Plan, x: nat, i: nat)
    requires i < |p.src|
  {
    p.src[i].None? || x < p.src[i].value
  }

  /** Left item `x` stays, or is the source of an item before `i`. */
  ghost predicate Taken(p: Plan, x: nat, i: nat) {
    exists j: nat :: j < |p.src| && p.src[j] == Some(x) && (p.Kept(j) || j < i)
  }

  /** `y` lists the unused left items in order, and only items before `t` have been moved. */
  ghost predicate Listed(c: nat, p: Plan, y: seq<nat>, t: nat) {
    && (forall x: nat :: x < c ==> (x in y <==> Some(x) !in p.src))
    && (forall q, q' :: 0 <= q < q' < |y| ==> y[q] < y[q'])
    && (forall i :: i in p.moved ==> i < t && i < |p.src| && p.src[i].Some?)
  }

  lemma {:induction false} TakenStays(p: Plan, x: nat, i: nat, t: nat, x': nat)
    requires Taken(p, x, i) && t < |p.src| && p.src[t].None?
    ensures Taken(Plan(p.src[t := Some(x')], p.moved + {t}), x, i)
  {
    var j: nat :| j < |p.src| && p.src[j] == Some(x) && (p.Kept(j) || j < i);
    var p' := Plan(p.src[t := Some(x')], p.moved + {t});
    assert p'.src[j] == Some(x) && (p'.Kept(j) || j < i);
  }

  /** A left item that is not listed stays, or has been moved already. */
  lemma {:induction false} NotListed(c: nat, p: Plan, y: seq<nat>, t: nat, x: nat)
    requires Listed(c, p, y, t) && x < c && x !in y
    ensures Taken(p, x, t)
  {
    var j: nat :| j < |p.src| && p.src[j] == Some(x);
    assert p.Kept(j) || j < t;
  }

  lemma {:induction false} GreedySkips(o: seq<Json>, f: seq<Json>, byPosition: bool, p: Plan, y: seq<nat>, t: nat)
    requires |p.src| == |f| && t < |f| && Listed(|o|, p, y, t) && Greedy(o, f, byPosition, p, t)
    requires p.src[t].Some? || forall q :: 0 <= q < |y| ==> !MatchItems(o, f, byPosition, y[q], t)
    ensures Listed(|o|, p, y, t + 1) && Greedy(o, f, byPosition, p, t + 1)
  {
    hide MatchItems, Taken;
    MatchBounds(o, f, byPosition);
    forall x: nat | !p.Kept(t) && MatchItems(o, f, byPosition, x, t) && p.src[t].None?
      ensures Taken(p, x, t)
    {
      NotListed(|o|, p, y, t, x);
    }
  }

  lemma {:induction false} MatchBounds(o: seq<Json>, f: seq<Json>, byPosition: bool)
    ensures forall x: nat, i: nat :: MatchItems(o, f, byPosition, x, i) ==> x < |o| && i < |f|
  {
  }

  lemma {:induction false} ListedOn(c: nat, p: Plan, y: seq<nat>, t: nat, q: nat)
    requires Listed(c, p, y, t) && t < |p.src| && p.src[t].None? && q < |y| && y[q] < c
    ensures Listed(c, Plan(p.src[t := Some(y[q])], p.moved + {t}), RemoveAt(y, q), t + 1)
  {
    var p', y' := Plan(p.src[t := Some(y[q])], p.moved + {t}), RemoveAt(y, q);
    RemovedMembers(y, q);
    forall x: nat | x < c
      ensures x in y' <==> Some(x) !in p'.src
    {
      SetMembers(p.src, t, Some(y[q]), Some(x));
    }
    forall a, b | 0 <= a < b < |y'|
      ensures y'[a] < y'[b]
    {
      assert y'[a] == y[if a < q then a else a + 1] && y'[b] == y[if b < q then b else b + 1];
    }
  }

  lemma {:induction false} RemovedMembers(y: seq<nat>, q: nat)
    requires q < |y| && forall a, b :: 0 <= a < b < |y| ==> y[a] < y[b]
    ensures forall x :: x in RemoveAt(y, q) <==> x in y && x != y[q]
  {
    var y' := RemoveAt(y, q);
    forall x | x in y && x != y[q]
      ensures x in y'
    {
      var k :| 0 <= k < |y| && y[k] == x;
      assert y'[if k < q then k else k - 1] == x;
    }
    forall k | 0 <= k < |y'|
      ensures y'[k] in y && y'[k] != y[q]
    {
      assert y'[k] == y[if k < q then k else k + 1];
    }
  }

  lemma {:induction false} SetMembers(src: seq<Option<nat>>, t: nat, v: Option<nat>, w: Option<nat>)
    requires t < |src| && src[t].None? && w.Some?
    ensures w in src[t := v] <==> w in src || w == v
  {
    var src' := src[t := v];
    assert src'[t] == v;
    if w in src {
      var j :| 0 <= j < |src| && src[j] == w;
      assert src'[j] == w;
    }
  }

  lemma {:induction false} NoneBefore(o: seq<Json>, f: seq<Json>, byPosition: bool, y: seq<nat>, t: nat, q: nat)
    requires q < |y| && forall a, b :: 0 <= a < b < |y| ==> y[a] < y[b]
    requires forall k :: 0 <= k < q ==> !MatchItems(o, f, byPosition, y[k], t)
    ensures forall x: nat :: x in y && x < y[q] ==> !MatchItems(o, f, byPosition, x, t)
  {
    hide MatchItems;
    forall x: nat | x in y && x < y[q]
      ensures !MatchItems(o, f, byPosition, x, t)
    {
      var k :| 0 <= k < |y| && y[k] == x;
      assert k < q;
    }
  }

  lemma {:induction false} GreedyMoves(o: seq<Json>, f: seq<Json>, byPosition: bool, p: Plan, y: seq<nat>, t: nat,
                                       q: nat)
    requires |p.src| == |f| && t < |f| && p.src[t].None? && Listed(|o|, p, y, t) && Greedy(o, f, byPosition, p, t)
    requires q < |y| && y[q] < |o| && forall k :: 0 <= k < q ==> !MatchItems(o, f, byPosition, y[k], t)
    ensures Greedy(o, f, byPosition, Plan(p.src[t := Some(y[q])], p.moved + {t}), t + 1)
  {
    hide MatchItems, Taken;
    MatchBounds(o, f, byPosition);
    var p' := Plan(p.src[t := Some(y[q])], p.moved + {t});
    NoneBefore(o, f, byPosition, y, t, q);
    forall i: nat, x: nat | i < t + 1 && !p'.Kept(i) && MatchItems(o, f, byPosition, x, i) && Earlier(p', x, i)
      ensures Taken(p', x, i)
    {
      if i < t {
        assert !p.Kept(i) && Earlier(p, x, i);
      } else {
        NotListed(|o|, p, y, t, x);
      }
      TakenStays(p, x, i, t, y[q]);
    }
  }

  lemma {:induction false} AddMovesGreedy(o: seq<Json>, f: seq<Json>, byPosition: bool, p: Plan, y: seq<nat>, t: nat)
    requires |p.src| == |f| && t <= |f| && Listed(|o|, p, y, t) && Greedy(o, f, byPosition, p, t)
    requires forall q :: 0 <= q < |y| ==> y[q] < |o|
    ensures var p' := AddMoves(o, f, byPosition, p, y, t); |p'.src| == |f| && Greedy(o, f, byPosition, p', |f|)
    decreases |f| - t
  {
    hide MatchItems, Listed, Greedy;
    if t < |f| {
      if p.src[t].Some? || FindMove(o, f, byPosition, y, t, 0).None? {
        GreedySkips(o, f, byPosition, p, y, t);
        AddMovesGreedy(o, f, byPosition, p, y, t + 1);
      } else {
        var q := FindMove(o, f, byPosition, y, t, 0).value;
        GreedyMoves(o, f, byPosition, p, y, t, q);
        ListedOn(|o|, p, y, t, q);
        AddMovesGreedy(o, f, byPosition, Plan(p.src[t := Some(y[q])], p.moved + {t}), RemoveAt(y, q), t + 1);
      }
    }
  }

  lemma {:induction false} UnusedListed(src: seq<Option<nat>>, c: nat)
    ensures Listed(c, Plan(src, {}), Unused(src, c), 0)
    ensures forall q :: 0 <= q < |Unused(src, c)| ==> Unused(src, c)[q] < c
  {
    var s := UnusedSet(src, c);
    AscendingFacts(s, c);
    IncreasingSorted(Unused(src, c), c);
    assert forall x: nat :: x in SetOf(Unused(src, c)) <==> x in Unused(src, c);
  }

  lemma {:induction false} IncreasingSorted(idx: seq<nat>, n: nat)
    requires Increasing(idx, n)
    ensures forall q, q' :: 0 <= q < q' < |idx| ==> idx[q] < idx[q']
  {
    if idx != [] {
      var last := |idx| - 1;
      IncreasingSorted(idx[..last], idx[last]);
      IncreasingBelow(idx[..last], idx[last]);
      forall q, q' | 0 <= q < q' < |idx|
        ensures idx[q] < idx[q']
      {
        assert idx[q] == idx[..last][q];
        assert idx[q] in idx[..last];
      }
    }
  }

  /** Every right item that does not stay takes the first left item that is left for it and matches it. */
  lemma {:induction false} MovesAreGreedy(o: seq<Json>, f: seq<Json>)
    ensures var p := MakePlan(o, f); |p.src| == |f| && Greedy(o, f, ByPosition(o, f), p, |f|)
  {
    hide BasePlan, Unused, AddMoves, MatchItems, ByPosition;
    var byPosition := ByPosition(o, f);
    var src := BasePlan(o, f, byPosition);
    UnusedListed(src, |o|);
    AddMovesGreedy(o, f, byPosition, Plan(src, {}), Unused(src, |o|), 0);
  }

  /** No right item without a source matches a left item that is nobody's source. */
  lemma {:induction false} NoMoveMissed(o: seq<Json>, f: seq<Json>, x: nat, i: nat)
    requires x < |o| && i < |f|
    ensures var p := MakePlan(o, f);
      |p.src| == |f| && (p.src[i].None? && Some(x) !in p.src ==> !MatchItems(o, f, ByPosition(o, f), x, i))
  {
    hide MatchItems, ByPosition, MakePlan;
    MovesAreGreedy(o, f);
  }

  /** A delta does not delete an item and add an identical one. */
  lemma {:induction false} NoNeedlessAddition(o: seq<Json>, f: seq<Json>, d: Delta, i: nat, x: nat)
    requires Diff(Arr(o), Arr(f)) == Some(d)
    ensures d.ArrD?
    ensures i in d.at && d.at[i].Addition? && x in d.gone && d.gone[x].Deletion? ==>
      !Identical(d.gone[x].left, d.at[i].value)
  {
    hide Diff, MakePlan, Whole;
    var p := MakePlan(o, f);
    var at := ArrayDiff(o, f);
    if i in at && at[i].Addition? && x in GoneItems(o, p) && GoneItems(o, p)[x].Deletion? {
      if p.src[i].Some? {
        DiffKinds(o[p.src[i].value], f[i]);
      }
      assert x < |o| && !StaysPut(p, x) && Dest(p, x, 0) == None;
      NoMoveMissed(o, f, x, i);
      assert Some(x) !in p.src;
    }
  }
}
