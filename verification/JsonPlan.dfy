/** JSON values, and how the array diff pairs the items of two arrays. */
module JsonPlan {
  import opened Wrappers
  import Lcs
  import opened Splices

  /** Every key but the one that stands for an object's prototype. */
  type Key = k: string | k != "__proto__"

  /** Two values parsed from two texts share no references, so only scalars can be identical. */
  datatype Json = Null | Bool(b: bool) | Num(n: real) | Str(s: string) | Arr(items: seq<Json>)
    | Obj(fields: map<Key, Json>)

  /** The names that every object inherits: looking one of them up always finds something, a function unless the object
      has a value of its own. */
  predicate Inherited(k: Key) {
    k in ["constructor", "hasOwnProperty", "isPrototypeOf", "propertyIsEnumerable", "toLocaleString", "toString",
      "valueOf", "__defineGetter__", "__defineSetter__", "__lookupGetter__", "__lookupSetter__"]
  }

  predicate Scalar(j: Json) { !j.Arr? && !j.Obj? }

  predicate Identical(x: Json, y: Json) { Scalar(x) && x == y }

  /** What JavaScript calls an object, `null` included. */
  predicate ObjectType(j: Json) { j.Null? || j.Arr? || j.Obj? }

  // ---------------------------------------------------------------- matching items

  /** Some item of `o` is identical to some item of `f`. */
  predicate ShareItem(o: seq<Json>, f: seq<Json>) {
    exists i, j :: 0 <= i < |o| && 0 <= j < |f| && Identical(o[i], f[j])
  }

  /** Without a hash function for objects, they match by position, and only if no items are shared. */
  predicate MatchItems(o: seq<Json>, f: seq<Json>, byPosition: bool, i: nat, j: nat) {
    && i < |o| && j < |f|
    && (Identical(o[i], f[j]) || (ObjectType(o[i]) && ObjectType(f[j]) && byPosition && i == j))
  }

  function ByPosition(o: seq<Json>, f: seq<Json>): bool {
    |o| > 0 && |f| > 0 && !ShareItem(o, f)
  }

  // ---------------------------------------------------------------- plans

  /** How the items of the right array come about: `src[i]` is the left index that item `i` is made from, if any,
      and `moved` holds the right indices whose source had to be moved there. */
  datatype Plan = Plan(src: seq<Option<nat>>, moved: set<nat>)
  {
    predicate Kept(i: nat) { i < |src| && src[i].Some? && i !in moved }

    predicate Fresh(i: nat) { i < |src| && (src[i].None? || i in moved) }
  }

  /** A plan for arrays with `c` and `h` items: sources are distinct, and the kept ones are in order. */
  ghost predicate ValidPlan(p: Plan, c: nat, h: nat) {
    && |p.src| == h
    && (forall i :: i in p.moved ==> i < h && p.src[i].Some?)
    && (forall i :: 0 <= i < h && p.src[i].Some? ==> p.src[i].value < c)
    && (forall i, j :: 0 <= i < j < h && p.src[i].Some? && p.src[j].Some? ==> p.src[i].value != p.src[j].value)
    && (forall i, j :: 0 <= i < j < h && p.Kept(i) && p.Kept(j) ==> p.src[i].value < p.src[j].value)
  }

  /** The length of the common head from `i` on. */
  function Head(o: seq<Json>, f: seq<Json>, byPosition: bool, i: nat): (r: nat)
    requires i <= |o| && i <= |f|
    ensures i <= r <= |o| && r <= |f| && !MatchItems(o, f, byPosition, r, r)
    ensures forall k :: i <= k < r ==> MatchItems(o, f, byPosition, k, k)
    decreases |o| - i
  {
    if MatchItems(o, f, byPosition, i, i) then Head(o, f, byPosition, i + 1) else i
  }

  /** The length of the common tail, from `s` on, that does not reach into the head of length `l`. */
  function Tail(o: seq<Json>, f: seq<Json>, byPosition: bool, l: nat, s: nat): (r: nat)
    requires l + s <= |o| && l + s <= |f|
    ensures s <= r && l + r <= |o| && l + r <= |f|
    ensures l + r == |o| || l + r == |f| || !MatchItems(o, f, byPosition, |o| - 1 - r, |f| - 1 - r)
    decreases |o| - s
  {
    if l + s < |o| && l + s < |f| && MatchItems(o, f, byPosition, |o| - 1 - s, |f| - 1 - s)
    then Tail(o, f, byPosition, l, s + 1)
    else s
  }

  /** The plan before any moves: head, the pairs of a longest common subsequence of the middle, and tail. */
  function BasePlan(o: seq<Json>, f: seq<Json>, byPosition: bool): (src: seq<Option<nat>>)
    ensures |src| == |f|
  {
    var l := Head(o, f, byPosition, 0);
    var s := Tail(o, f, byPosition, l, 0);
    var (xs, ys) := Lcs.Backtrack(Middle(o, f, byPosition, l), |o| - l - s, |f| - l - s);
    seq(|f|, i requires 0 <= i < |f| => SourceAt(|o|, |f|, l, s, xs, ys, i))
  }

  function Middle(o: seq<Json>, f: seq<Json>, byPosition: bool, l: nat): Lcs.Matcher {
    (x: nat, y: nat) => MatchItems(o, f, byPosition, x + l, y + l)
  }

  function SourceAt(c: nat, h: nat, l: nat, s: nat, xs: seq<nat>, ys: seq<nat>, i: nat): Option<nat>
    requires l + s <= c && l + s <= h && |xs| == |ys| && i < h
  {
    if i < l then Some(i)
    else if i >= h - s then Some(c - h + i)
    else match IndexOf(ys, i - l)
      case Some(q) => Some(xs[q] + l)
      case None => None
  }

  function IndexOf(ys: seq<nat>, y: nat): (r: Option<nat>)
    ensures match r case Some(q) => q < |ys| && ys[q] == y case None => y !in ys
  {
    if ys == [] then None
    else if ys[|ys| - 1] == y then Some(|ys| - 1)
    else IndexOf(ys[..|ys| - 1], y)
  }

  // ---------------------------------------------------------------- the base plan is valid

  lemma {:induction false} CommonAt(m: Lcs.Matcher, i: nat, j: nat, xs: seq<nat>, ys: seq<nat>, q: nat)
    requires Lcs.Common(m, i, j, xs, ys) && q < |xs|
    ensures xs[q] < i && ys[q] < j && m(xs[q], ys[q])
  {
    var n := |xs| - 1;
    if q < n {
      CommonAt(m, xs[n], ys[n], xs[..n], ys[..n], q);
    }
  }

  lemma {:induction false} CommonOrder(m: Lcs.Matcher, i: nat, j: nat, xs: seq<nat>, ys: seq<nat>, p: nat, q: nat)
    requires Lcs.Common(m, i, j, xs, ys) && p < q < |xs|
    ensures xs[p] < xs[q] && ys[p] < ys[q]
  {
    var n := |xs| - 1;
    if q < n {
      CommonOrder(m, xs[n], ys[n], xs[..n], ys[..n], p, q);
    } else {
      CommonAt(m, xs[n], ys[n], xs[..n], ys[..n], p);
    }
  }

  /** Every item with a source matches it, and later items have later sources. */
  ghost predicate InOrder(o: seq<Json>, f: seq<Json>, byPosition: bool, src: seq<Option<nat>>) {
    && |src| == |f|
    && (forall i :: 0 <= i < |src| && src[i].Some? ==> MatchItems(o, f, byPosition, src[i].value, i))
    && (forall i, j :: 0 <= i < j < |src| && src[i].Some? && src[j].Some? ==> src[i].value < src[j].value)
  }

  lemma {:induction false} TailMatches(o: seq<Json>, f: seq<Json>, byPosition: bool, l: nat, s: nat, k: nat)
    requires l + s <= |o| && l + s <= |f| && s <= k < Tail(o, f, byPosition, l, s)
    ensures MatchItems(o, f, byPosition, |o| - 1 - k, |f| - 1 - k)
    decreases |o| - s
  {
    if s < k {
      TailMatches(o, f, byPosition, l, s + 1, k);
    }
  }

  lemma {:induction false} SourceMatches(o: seq<Json>, f: seq<Json>, byPosition: bool, i: nat)
    requires i < |f| && BasePlan(o, f, byPosition)[i].Some?
    ensures MatchItems(o, f, byPosition, BasePlan(o, f, byPosition)[i].value, i)
    ensures var l := Head(o, f, byPosition, 0);
      var s := Tail(o, f, byPosition, l, 0);
      var x := BasePlan(o, f, byPosition)[i].value;
      if i < l then x < l else if i >= |f| - s then x >= |o| - s else l <= x < |o| - s
  {
    hide Head, Tail, Lcs.Backtrack, Lcs.Len, Lcs.Common, ByPosition;
    var l := Head(o, f, byPosition, 0);
    var s := Tail(o, f, byPosition, l, 0);
    var m := Middle(o, f, byPosition, l);
    var c, h := |o| - l - s, |f| - l - s;
    var (xs, ys) := Lcs.Backtrack(m, c, h);
    if l <= i < |f| - s {
      Lcs.BacktrackIsCommon(m, c, h);
      CommonAt(m, c, h, xs, ys, IndexOf(ys, i - l).value);
    } else if i >= |f| - s {
      TailMatches(o, f, byPosition, l, 0, |f| - 1 - i);
    }
  }

  lemma {:induction false} SourceOrder(o: seq<Json>, f: seq<Json>, byPosition: bool, i: nat, j: nat)
    requires i < j < |f| && BasePlan(o, f, byPosition)[i].Some? && BasePlan(o, f, byPosition)[j].Some?
    ensures BasePlan(o, f, byPosition)[i].value < BasePlan(o, f, byPosition)[j].value
  {
    hide Head, Tail, Lcs.Backtrack, Lcs.Len, Lcs.Common, MatchItems;
    var l := Head(o, f, byPosition, 0);
    var s := Tail(o, f, byPosition, l, 0);
    var m := Middle(o, f, byPosition, l);
    var c, h := |o| - l - s, |f| - l - s;
    var (xs, ys) := Lcs.Backtrack(m, c, h);
    SourceMatches(o, f, byPosition, i);
    SourceMatches(o, f, byPosition, j);
    if l <= i && j < |f| - s {
      Lcs.BacktrackIsCommon(m, c, h);
      var p, q := IndexOf(ys, i - l).value, IndexOf(ys, j - l).value;
      if p < q {
        CommonOrder(m, c, h, xs, ys, p, q);
      } else if q < p {
        CommonOrder(m, c, h, xs, ys, q, p);
      }
    }
  }

  lemma {:induction false} BasePlanInOrder(o: seq<Json>, f: seq<Json>, byPosition: bool)
    ensures InOrder(o, f, byPosition, BasePlan(o, f, byPosition))
  {
    hide BasePlan, MatchItems;
    var src := BasePlan(o, f, byPosition);
    forall i | 0 <= i < |src| && src[i].Some?
      ensures MatchItems(o, f, byPosition, src[i].value, i)
    {
      SourceMatches(o, f, byPosition, i);
    }
    forall i, j | 0 <= i < j < |src| && src[i].Some? && src[j].Some?
      ensures src[i].value < src[j].value
    {
      SourceOrder(o, f, byPosition, i, j);
    }
  }

  // ---------------------------------------------------------------- moves

  predicate Used(src: seq<Option<nat>>, x: nat) { Some(x) in src }

  function UnusedSet(src: seq<Option<nat>>, c: nat): set<nat> { set x: nat | x < c && !Used(src, x) }

  function Unused(src: seq<Option<nat>>, c: nat): seq<nat> { Ascending(UnusedSet(src, c), c) }

  /** The first of the removed items that matches item `t` of the right array. */
  function FindMove(o: seq<Json>, f: seq<Json>, byPosition: bool, y: seq<nat>, t: nat, q: nat): (r: Option<nat>)
    requires q <= |y|
    ensures r.Some? ==> q <= r.value < |y| && MatchItems(o, f, byPosition, y[r.value], t)
    ensures forall k :: q <= k < (if r.Some? then r.value else |y|) ==> !MatchItems(o, f, byPosition, y[k], t)
    decreases |y| - q
  {
    if q == |y| then None
    else if MatchItems(o, f, byPosition, y[q], t) then Some(q)
    else FindMove(o, f, byPosition, y, t, q + 1)
  }

  /** Right items that are still without a source take the first removed item that matches them. */
  function AddMoves(o: seq<Json>, f: seq<Json>, byPosition: bool, p: Plan, y: seq<nat>, t: nat): Plan
    requires |p.src| == |f| && t <= |f|
    decreases |f| - t
  {
    if t == |f| then p
    else if p.src[t].Some? then AddMoves(o, f, byPosition, p, y, t + 1)
    else match FindMove(o, f, byPosition, y, t, 0)
      case None => AddMoves(o, f, byPosition, p, y, t + 1)
      case Some(q) =>
        AddMoves(o, f, byPosition, Plan(p.src[t := Some(y[q])], p.moved + {t}), RemoveAt(y, q), t + 1)
  }

  function MakePlan(o: seq<Json>, f: seq<Json>): Plan {
    var byPosition := ByPosition(o, f);
    var src := BasePlan(o, f, byPosition);
    AddMoves(o, f, byPosition, Plan(src, {}), Unused(src, |o|), 0)
  }

  /** The state of the search for moves: the plan is valid, its sources match, and `y` lists distinct unused items. */
  ghost predicate Moving(o: seq<Json>, f: seq<Json>, byPosition: bool, p: Plan, y: seq<nat>) {
    && ValidPlan(p, |o|, |f|)
    && (forall i :: 0 <= i < |f| && p.src[i].Some? ==> MatchItems(o, f, byPosition, p.src[i].value, i))
    && (forall q :: 0 <= q < |y| ==> y[q] < |o| && !Used(p.src, y[q]))
    && (forall q, q' :: 0 <= q < q' < |y| ==> y[q] != y[q'])
  }

  lemma {:induction false} MoveKeeps(o: seq<Json>, f: seq<Json>, byPosition: bool, p: Plan, y: seq<nat>, t: nat, q: nat)
    requires Moving(o, f, byPosition, p, y) && t < |f| && p.src[t].None?
    requires q < |y| && MatchItems(o, f, byPosition, y[q], t)
    ensures Moving(o, f, byPosition, Plan(p.src[t := Some(y[q])], p.moved + {t}), RemoveAt(y, q))
  {
    hide MatchItems;
    var p' := Plan(p.src[t := Some(y[q])], p.moved + {t});
    var y' := RemoveAt(y, q);
    assert forall i :: 0 <= i < |f| && p.src[i].Some? ==> Used(p.src, p.src[i].value);
    forall k | 0 <= k < |y'|
      ensures y'[k] < |o| && !Used(p'.src, y'[k])
    {
      var k' := if k < q then k else k + 1;
      assert y'[k] == y[k'] && y[k'] != y[q];
      forall i | 0 <= i < |p'.src|
        ensures p'.src[i] != Some(y'[k])
      {
        if i != t {
          assert p'.src[i] == p.src[i] && p.src[i] in p.src;
        }
      }
    }
  }

  lemma {:induction false} AddMovesValid(o: seq<Json>, f: seq<Json>, byPosition: bool, p: Plan, y: seq<nat>, t: nat)
    requires Moving(o, f, byPosition, p, y) && t <= |f|
    ensures var p' := AddMoves(o, f, byPosition, p, y, t);
      && ValidPlan(p', |o|, |f|)
      && forall i :: 0 <= i < |f| && p'.src[i].Some? ==> MatchItems(o, f, byPosition, p'.src[i].value, i)
    decreases |f| - t
  {
    hide MatchItems;
    if t == |f| {
    } else if p.src[t].Some? {
      AddMovesValid(o, f, byPosition, p, y, t + 1);
    } else {
      match FindMove(o, f, byPosition, y, t, 0)
      case None => AddMovesValid(o, f, byPosition, p, y, t + 1);
      case Some(q) =>
        MoveKeeps(o, f, byPosition, p, y, t, q);
        var p' := Plan(p.src[t := Some(y[q])], p.moved + {t});
        AddMovesValid(o, f, byPosition, p', RemoveAt(y, q), t + 1);
    }
  }

  lemma {:induction false} UnusedFacts(src: seq<Option<nat>>, c: nat)
    ensures var y := Unused(src, c);
      && (forall q :: 0 <= q < |y| ==> y[q] < c && !Used(src, y[q]))
      && (forall q, q' :: 0 <= q < q' < |y| ==> y[q] != y[q'])
  {
    var s := UnusedSet(src, c);
    AscendingFacts(s, c);
    IncreasingDistinct(Ascending(s, c), c);
  }

  lemma {:induction false} IncreasingDistinct(idx: seq<nat>, n: nat)
    requires Increasing(idx, n)
    ensures forall q, q' :: 0 <= q < q' < |idx| ==> idx[q] != idx[q']
  {
    if idx != [] {
      var last := |idx| - 1;
      IncreasingDistinct(idx[..last], idx[last]);
      IncreasingBelow(idx[..last], idx[last]);
      forall q, q' | 0 <= q < q' < |idx|
        ensures idx[q] != idx[q']
      {
        assert idx[q] == idx[..last][q];
        assert idx[q] in idx[..last];
      }
    }
  }

  /** Whatever the arrays, the plan is valid, and every item that is taken over matches its source. */
  lemma {:induction false} MakePlanValid(o: seq<Json>, f: seq<Json>)
    ensures var p := MakePlan(o, f);
      && ValidPlan(p, |o|, |f|)
      && forall i :: 0 <= i < |f| && p.src[i].Some? ==> MatchItems(o, f, ByPosition(o, f), p.src[i].value, i)
  {
    hide BasePlan, MatchItems, Unused, AddMoves;
    var byPosition := ByPosition(o, f);
    var src := BasePlan(o, f, byPosition);
    BasePlanInOrder(o, f, byPosition);
    UnusedFacts(src, |o|);
    InOrderMoving(o, f, byPosition, src, Unused(src, |o|));
    AddMovesValid(o, f, byPosition, Plan(src, {}), Unused(src, |o|), 0);
  }

  lemma {:induction false} InOrderMoving(o: seq<Json>, f: seq<Json>, byPosition: bool, src: seq<Option<nat>>,
                                         y: seq<nat>)
    requires InOrder(o, f, byPosition, src)
    requires forall q :: 0 <= q < |y| ==> y[q] < |o| && !Used(src, y[q])
    requires forall q, q' :: 0 <= q < q' < |y| ==> y[q] != y[q']
    ensures Moving(o, f, byPosition, Plan(src, {}), y)
  {
  }

  // ---------------------------------------------------------------- arrays without a difference

  /** The head and tail cover both arrays: the code then records no array delta of its own. */
  predicate Whole(o: seq<Json>, f: seq<Json>) {
    var l := Head(o, f, ByPosition(o, f), 0);
    l + Tail(o, f, ByPosition(o, f), l, 0) == |o| == |f|
  }

  /** Every item is a scalar, or none is. */
  ghost predicate Unmixed(items: seq<Json>) {
    (forall i :: 0 <= i < |items| ==> Scalar(items[i])) || (forall i :: 0 <= i < |items| ==> !Scalar(items[i]))
  }

  lemma {:induction false} WholeIsIdentity(o: seq<Json>, f: seq<Json>)
    requires Whole(o, f)
    ensures |o| == |f| && forall i :: 0 <= i < |f| ==> MatchItems(o, f, ByPosition(o, f), i, i)
    ensures |MakePlan(o, f).src| == |f|
    ensures MakePlan(o, f).moved == {} && forall i :: 0 <= i < |f| ==> MakePlan(o, f).src[i] == Some(i)
  {
    var byPosition := ByPosition(o, f);
    var l := Head(o, f, byPosition, 0);
    var s := Tail(o, f, byPosition, l, 0);
    var src := BasePlan(o, f, byPosition);
    forall i | 0 <= i < |f|
      ensures src[i] == Some(i) && MatchItems(o, f, byPosition, i, i)
    {
      if i >= l {
        TailMatches(o, f, byPosition, l, 0, |f| - 1 - i);
      }
    }
    NoMoves(o, f, byPosition, Plan(src, {}), Unused(src, |o|), 0);
  }

  lemma {:induction false} NoMoves(o: seq<Json>, f: seq<Json>, byPosition: bool, p: Plan, y: seq<nat>, t: nat)
    requires |p.src| == |f| && t <= |f| && forall i :: 0 <= i < |f| ==> p.src[i].Some?
    ensures AddMoves(o, f, byPosition, p, y, t) == p
    decreases |f| - t
  {
    if t < |f| {
      NoMoves(o, f, byPosition, p, y, t + 1);
    }
  }

  lemma {:induction false} WholeUnmixed(a: seq<Json>)
    requires Whole(a, a)
    ensures Unmixed(a)
  {
    hide Whole;
    var byPosition := ByPosition(a, a);
    WholeIsIdentity(a, a);
    if i :| 0 <= i < |a| && Scalar(a[i]) {
      assert Identical(a[i], a[i]);
      assert !byPosition;
      forall j | 0 <= j < |a|
        ensures Scalar(a[j])
      {
        assert MatchItems(a, a, byPosition, j, j);
      }
    }
  }

  lemma {:induction false} UnmixedWhole(a: seq<Json>)
    requires Unmixed(a)
    ensures Whole(a, a)
  {
    var byPosition := ByPosition(a, a);
    forall i | 0 <= i < |a|
      ensures MatchItems(a, a, byPosition, i, i)
    {
      if !Scalar(a[i]) {
        assert forall k, j :: 0 <= k < |a| && 0 <= j < |a| ==> !Identical(a[k], a[j]);
      }
    }
    var l := Head(a, a, byPosition, 0);
    assert l == |a|;
  }

  /** An array is recognised as unchanged exactly if it does not mix scalars with arrays or objects: with a scalar
      in it, its other items are no longer matched by position. */
  lemma {:induction false} WholeIffUnmixed(a: seq<Json>)
    ensures Whole(a, a) <==> Unmixed(a)
  {
    if Whole(a, a) {
      WholeUnmixed(a);
    }
    if Unmixed(a) {
      UnmixedWhole(a);
    }
  }
}
