/** What the operations of a chain do, one by one, in terms of the positions of the items. */
module LazyMeaning {
  import opened LazyChain

  /** Whether the operation keeps the item at position `k`. */
  ghost predicate Keeps<T>(op: Op<T>, xs: seq<T>, k: nat)
    requires k < |xs|
  {
    match op
    case Drop(n) => k >= n
    case DropRight(n) => k < |xs| - n
    case Take(n) => k < n
    case TakeRight(n) => k >= |xs| - n
    case Reverse => true
    case Map(_) => true
    case Filter(p) => p(xs[k])
    case TakeWhile(p) => forall j :: 0 <= j <= k ==> p(xs[j])
  }

  /** `r` has, in order, the items at the positions `idx`. */
  ghost predicate Picks<T(!new)>(op: Op<T>, xs: seq<T>, idx: seq<nat>, r: seq<T>) {
    && |r| == |idx|
    && (forall i :: 0 <= i < |idx| ==> idx[i] < |xs| && r[i] == if op.Map? then op.f(xs[idx[i]]) else xs[idx[i]])
    && (forall i, j :: 0 <= i < j < |idx| ==> if op.Reverse? then idx[i] > idx[j] else idx[i] < idx[j])
    && (forall k: nat :: k < |xs| ==> (k in idx <==> Keeps(op, xs, k)))
  }

  function From(a: nat, n: nat): (r: seq<nat>)
    ensures |r| == n
  {
    seq(n, i requires 0 <= i < n => a + i)
  }

  lemma {:induction false} InFrom(a: nat, n: nat, k: nat)
    ensures k in From(a, n) <==> a <= k < a + n
  {
    if a <= k < a + n {
      assert From(a, n)[k - a] == k;
    }
  }

  /** Operations that keep one stretch. */
  lemma {:induction false} PicksStretch<T(!new)>(op: Op<T>, xs: seq<T>, a: nat, n: nat, r: seq<T>)
    requires a + n <= |xs| && |r| == n && !op.Reverse?
    requires forall i :: 0 <= i < n ==> r[i] == if op.Map? then op.f(xs[a + i]) else xs[a + i]
    requires forall k: nat :: k < |xs| ==> (Keeps(op, xs, k) <==> a <= k < a + n)
    ensures Picks(op, xs, From(a, n), r)
  {
    hide Keeps;
    forall k: nat | k < |xs|
      ensures k in From(a, n) <==> Keeps(op, xs, k)
    {
      InFrom(a, n, k);
    }
  }

  lemma {:induction false} PicksReversed<T(!new)>(xs: seq<T>) returns (idx: seq<nat>)
    ensures Picks(Reverse, xs, idx, Reversed(xs))
  {
    var n := |xs|;
    idx := seq(n, i requires 0 <= i < n => n - 1 - i);
    forall k: nat | k < n
      ensures k in idx
    {
      assert idx[n - 1 - k] == k;
    }
  }

  lemma {:induction false} Filters<T(!new)>(p: T -> bool, xs: seq<T>) returns (idx: seq<nat>)
    ensures Picks(Filter(p), xs, idx, Filtered(p, xs))
  {
    idx := [];
    if xs != [] {
      var n := |xs| - 1;
      var before := Filters(p, xs[..n]);
      idx := if p(xs[n]) then before + [n] else before;
      OneMoreFiltered(p, xs, before, Filtered(p, xs[..n]));
    }
  }

  lemma {:induction false} OneMoreFiltered<T(!new)>(p: T -> bool, xs: seq<T>, idx: seq<nat>, r: seq<T>)
    requires xs != [] && Picks(Filter(p), xs[..|xs| - 1], idx, r)
    ensures var n := |xs| - 1;
      Picks(Filter(p), xs, if p(xs[n]) then idx + [n] else idx, r + if p(xs[n]) then [xs[n]] else [])
  {
    var n := |xs| - 1;
    var all := if p(xs[n]) then idx + [n] else idx;
    forall k: nat | k < |xs|
      ensures k in all <==> Keeps(Filter(p), xs, k)
    {
      LastFiltered(p, xs, idx, r, k);
    }
    hide Keeps;
    assert r + [] == r;
  }

  lemma {:induction false} LastFiltered<T(!new)>(p: T -> bool, xs: seq<T>, idx: seq<nat>, r: seq<T>, k: nat)
    requires xs != [] && Picks(Filter(p), xs[..|xs| - 1], idx, r) && k < |xs|
    ensures k in (if p(xs[|xs| - 1]) then idx + [|xs| - 1] else idx) <==> Keeps(Filter(p), xs, k)
  {
    var n := |xs| - 1;
    if k < n {
      assert k in idx <==> Keeps(Filter(p), xs[..n], k);
    } else {
      assert k !in idx;
    }
  }

  lemma {:induction false} Stops<T(!new)>(p: T -> bool, xs: seq<T>)
    ensures While(p, xs) <= xs && All(p, While(p, xs))
    ensures |While(p, xs)| < |xs| ==> !p(xs[|While(p, xs)|])
  {
    if !All(p, xs) {
      var n := |xs| - 1;
      Stops(p, xs[..n]);
      if |While(p, xs[..n])| == n {
        assert While(p, xs[..n]) == xs[..n];
      }
    }
  }

  /** Each operation keeps just the items that it should, in their order or reversed, and only `map` changes them. */
  lemma {:induction false} ApplyPicks<T(!new)>(op: Op<T>, xs: seq<T>) returns (idx: seq<nat>)
    ensures Picks(op, xs, idx, Apply(op, xs))
  {
    hide Picks, Filtered;
    var n := |Apply(op, xs)|;
    match op
    case Filter(p) => idx := Filters(p, xs);
    case Reverse => idx := PicksReversed(xs);
    case TakeWhile(p) =>
      Stops(p, xs);
      PicksStretch(op, xs, 0, n, While(p, xs));
      idx := From(0, n);
    case _ =>
      var a := if op.Drop? || op.TakeRight? then |xs| - n else 0;
      PicksStretch(op, xs, a, n, Apply(op, xs));
      idx := From(a, n);
  }
}
