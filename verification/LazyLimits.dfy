/** What chains give that the lazy wrapper does not get right. */
module LazyLimits {
  import opened Wrappers
  import opened LazyChain

  lemma {:induction false} BuildSnoc<T>(xs: seq<T>, ops: seq<Op<T>>, op: Op<T>)
    ensures Build(xs, ops + [op]) == Chain(Build(xs, ops), op)
    ensures ApplyAll(ops + [op], xs) == Apply(op, ApplyAll(ops, xs))
  {
    assert (ops + [op])[..|ops|] == ops;
  }

  lemma {:induction false} BuildNone<T>(xs: seq<T>)
    ensures Build(xs, []) == Wrap(Plain(xs)) && ApplyAll([], xs) == xs
  {
  }

  lemma {:induction false} NotFirst<T>(w: Wrapper<T>, a: Op<T>, b: Op<T>)
    ensures !a.Reverse? ==> Chain(w, a) == ChainLazy(w, a)
    ensures Chain(ChainLazy(w, a), b) == ChainLazy(ChainLazy(w, a), b)
  {
  }

  lemma {:induction false} BuildTwo<T>(xs: seq<T>, a: Op<T>, b: Op<T>)
    requires !a.Reverse?
    ensures Build(xs, [a, b]) == ChainLazy(ChainLazy(Wrap(Plain(xs)), a), b)
    ensures ApplyAll([a, b], xs) == Apply(b, Apply(a, xs))
  {
    hide ChainLazy, Apply, Build, ApplyAll, Wrap;
    BuildNone(xs);
    BuildSnoc(xs, [], a);
    BuildSnoc(xs, [a], b);
    NotFirst(Wrap(Plain(xs)), a, b);
    assert [] + [a] == [a] && [a] + [b] == [a, b];
  }

  lemma {:induction false} BuildThree<T>(xs: seq<T>, a: Op<T>, b: Op<T>, c: Op<T>)
    requires !a.Reverse?
    ensures Build(xs, [a, b, c]) == ChainLazy(ChainLazy(ChainLazy(Wrap(Plain(xs)), a), b), c)
    ensures ApplyAll([a, b, c], xs) == Apply(c, Apply(b, Apply(a, xs)))
  {
    hide ChainLazy, Apply, Build, ApplyAll, Wrap;
    BuildTwo(xs, a, b);
    BuildSnoc(xs, [a, b], c);
    NotFirst(ChainLazy(Wrap(Plain(xs)), a), b, c);
    assert [a, b] + [c] == [a, b, c];
  }

  /** A reversal after a `drop` is right for large arrays: small ones are reversed before anything is dropped. */
  lemma {:induction false} DropThenReverse<T>(xs: seq<T>, n: nat)
    ensures Flagged([Op<T>.Drop(n), Reverse]).None?
    ensures Value(Build(xs, [Drop(n), Reverse]))
      == if |xs| < LARGE_ARRAY_SIZE then Apply(Drop(n), Reversed(xs)) else ApplyAll([Drop(n), Reverse], xs)
  {
    hide Apply, Fused, Reversed, ActAll;
    FlaggedTwo(Op<T>.Drop(n), Reverse);
    BuildTwo(xs, Drop(n), Reverse);
    var w1 := ChainLazy(Wrap(Plain(xs)), Drop(n));
    var w := ChainLazy(w1, Reverse);
    BareActions(Drop(n), Reversed(xs));
    ActSnoc([Do(Op<T>.Drop(n))], Same, Reversed(xs));
    assert [Do(Op<T>.Drop(n))] + [Same] == w.actions && [] + [Do(Op<T>.Drop(n))] == [Do(Op<T>.Drop(n))];
    ViewSnoc(|xs|, [], View(DropView, n));
    BareFused(Wrap(Plain(xs)), xs);
    FusedCut(Wrap(Plain(xs)), Drop(n), xs);
    FusedCut(w1, Reverse, xs);
    ReverseIs(Apply(Drop(n), xs));
    DropNothing(xs);
    DropNothing(Reversed(xs));
  }

  /** Every item is the same as the one `n` places later. */
  ghost predicate Repeats<T>(xs: seq<T>, n: nat) { forall i :: 0 <= i && i + n < |xs| ==> xs[i] == xs[i + n] }

  lemma {:induction false} DroppedEitherWay<T>(xs: seq<T>, n: nat)
    ensures Apply(Drop(n), Reversed(xs)) == Reversed(Apply(Drop(n), xs)) <==> Repeats(xs, n)
  {
    var a, b := Apply(Drop(n), Reversed(xs)), Reversed(Apply(Drop(n), xs));
    if a == b {
      forall i | 0 <= i && i + n < |xs|
        ensures xs[i] == xs[i + n]
      {
        DroppedAt(xs, n, |xs| - 1 - n - i);
      }
    }
    if Repeats(xs, n) {
      forall j | 0 <= j < |a|
        ensures a[j] == b[j]
      {
        DroppedAt(xs, n, j);
        var i := |xs| - 1 - n - j;
        assert xs[i] == xs[i + n];
      }
    }
  }

  lemma {:induction false} DroppedAt<T>(xs: seq<T>, n: nat, j: nat)
    requires j + n < |xs|
    ensures Apply(Drop(n), Reversed(xs))[j] == xs[|xs| - 1 - n - j]
    ensures Reversed(Apply(Drop(n), xs))[j] == xs[|xs| - 1 - j]
  {
  }

  /** So it is right exactly for large arrays and for those that repeat themselves as far as items are dropped. */
  lemma {:induction false} DropThenReverseRight<T>(xs: seq<T>, n: nat)
    ensures Value(Build(xs, [Drop(n), Reverse])) == ApplyAll([Drop(n), Reverse], xs) <==>
      |xs| >= LARGE_ARRAY_SIZE || Repeats(xs, n)
  {
    hide Value, Build, Apply, ApplyAll, Repeats;
    DropThenReverse(xs, n);
    BuildTwo(xs, Drop(n), Reverse);
    ReverseIs(Apply(Drop(n), xs));
    DroppedEitherWay(xs, n);
  }

  lemma {:induction false} DropNothing<T>(xs: seq<T>)
    ensures Apply(Drop(0), xs) == xs
  {
  }

  lemma {:induction false} FlaggedTwo<T>(a: Op<T>, b: Op<T>)
    ensures Flagged([a, b]) ==
      match Advance(Flags(false, false, false, true, true), a)
      case None => None
      case Some(m) => Advance(m, b)
  {
    assert [a, b][..1] == [a] && [a][..0] == [];
    assert Flagged<T>([]) == Some(Flags(false, false, false, true, true));
    assert Flagged([a]) == Advance(Flags(false, false, false, true, true), a);
  }

  lemma {:induction false} FlaggedThree<T>(a: Op<T>, b: Op<T>, c: Op<T>)
    ensures Flagged([a, b, c]) == match Flagged([a, b]) case None => None case Some(m) => Advance(m, c)
  {
    assert [a, b, c][..2] == [a, b];
  }

  /** The wrapper after filtering, dropping and taking: the filtered items, a view, and the two operations after it. */
  lemma {:induction false} FilterDropTakeBuilt<T>(xs: seq<T>, p: T -> bool, d: nat, n: nat)
    ensures var w := Build(xs, [Filter(p), Drop(d), Take(n)]);
      && SourceItems(w.source) == Filtered(p, xs) && !w.right && w.views == [View(TakeView, n)] && w.stages == []
      && w.count.None? && w.actions == [Do(Op<T>.Drop(d)), Do(Take(n))]
  {
    hide Filtered, Value, Fused, ActAll, Sound;
    BuildThree(xs, Filter(p), Drop(d), Take(n));
    FilterValue(xs, p);
    var w1 := ChainLazy(Wrap(Plain(xs)), Filter(p));
    InnerItems(w1);
  }

  lemma {:induction false} FilterValue<T>(xs: seq<T>, p: T -> bool)
    ensures Value(ChainLazy(Wrap(Plain(xs)), Filter(p))) == Filtered(p, xs)
  {
    hide Filtered, Fused, ActAll, Finish;
    var m := Flags(false, false, false, true, true);
    WrapSound(xs);
    StageSound(Wrap(Plain(xs)), m, Filter(p), xs, xs);
    SoundValue(ChainLazy(Wrap(Plain(xs)), Filter(p)), Advance(m, Filter(p)).value, xs, Filtered(p, xs));
  }

  /** A `take` after a `drop` of filtered items forgets the `drop`, if enough items are left for the loop. */
  lemma {:induction false} FilterDropTake<T>(xs: seq<T>, p: T -> bool, d: nat, n: nat)
    ensures var ys := Filtered(p, xs);
      Value(Build(xs, [Filter(p), Drop(d), Take(n)]))
        == if |ys| >= LARGE_ARRAY_SIZE && n < |ys| then First(ys, n) else First(Apply(Drop(d), ys), n)
  {
    hide Filtered, First, Fused, ActAll, Build, SourceItems;
    var ys := Filtered(p, xs);
    var w := Build(xs, [Filter(p), Drop(d), Take(n)]);
    FilterDropTakeBuilt(xs, p, d, n);
    ValueIs(w);
    BareActions(Drop(d), ys);
    ActSnoc([Do(Op<T>.Drop(d))], Do(Take(n)), ys);
    assert [Do(Op<T>.Drop(d))] + [Do(Take(n))] == w.actions && [] + [Do(Op<T>.Drop(d))] == [Do(Op<T>.Drop(d))];
    ViewSnoc(|ys|, [], View(TakeView, n));
    assert w.views == [] + [View(TakeView, n)];
    if n < |ys| {
      OneView(w, ys, n);
    }
  }

  lemma {:induction false} FilterDropTakeEager<T>(xs: seq<T>, p: T -> bool, d: nat, n: nat)
    ensures Flagged([Filter(p), Drop(d), Take(n)]).None?
    ensures ApplyAll([Filter(p), Drop(d), Take(n)], xs) == First(Apply(Drop(d), Filtered(p, xs)), n)
  {
    hide Filtered, Build, Value;
    FlaggedTwo(Filter(p), Drop(d));
    FlaggedThree(Filter(p), Drop(d), Take(n));
    BuildThree(xs, Filter(p), Drop(d), Take(n));
  }

  lemma {:induction false} ForgottenDrop<T>(ys: seq<T>, d: nat, n: nat)
    requires n < |ys|
    ensures First(ys, n) == First(Apply(Drop(d), ys), n) <==>
      n == 0 || (d + n <= |ys| && forall i :: 0 <= i < n ==> ys[i] == ys[i + d])
  {
    var a, b := First(ys, n), First(Apply(Drop(d), ys), n);
    if d + n <= |ys| {
      assert forall i :: 0 <= i < n ==> a[i] == ys[i] && b[i] == ys[i + d];
    }
  }

  /** So it is right exactly for few items, or if the items that should have been taken are those that were. */
  lemma {:induction false} FilterDropTakeRight<T>(xs: seq<T>, p: T -> bool, d: nat, n: nat)
    ensures var ops := [Filter(p), Drop(d), Take(n)];
      var ys := Filtered(p, xs);
      Value(Build(xs, ops)) == ApplyAll(ops, xs) <==>
        |ys| < LARGE_ARRAY_SIZE || n >= |ys| || n == 0
          || (d + n <= |ys| && forall i :: 0 <= i < n ==> ys[i] == ys[i + d])
  {
    hide Value, Build, Apply, ApplyAll, Filtered, First;
    FilterDropTake(xs, p, d, n);
    FilterDropTakeEager(xs, p, d, n);
    if n < |Filtered(p, xs)| {
      ForgottenDrop(Filtered(p, xs), d, n);
    }
  }

  lemma {:induction false} OneView<T>(w: Wrapper<T>, items: seq<T>, n: nat)
    requires w.views == [View(TakeView, n)] && !w.right && w.stages == [] && w.count.None? && n < |items|
    ensures Fused(w, items) == First(items, n)
  {
    assert [] + [View(TakeView, n)] == [View(TakeView, n)];
    ViewSnoc(|items|, [], View(TakeView, n));
    NoStages(First(items, n));
    assert items[0..n] == items[..n];
  }

  lemma {:induction false} FuseFilters<T>(xs: seq<T>, p: T -> bool, q: T -> bool)
    ensures Fuse(xs, [Filter(p), Filter(q)]).0 == Filtered(q, Filtered(p, xs))
  {
    hide Fuse, One, Filtered;
    NoStages(xs);
    FuseStage(xs, [], Filter(p));
    FuseStage(xs, [Filter(p)], Filter(q));
    assert [] + [Filter(p)] == [Filter(p)] && [Filter(p)] + [Filter(q)] == [Filter(p), Filter(q)];
  }

  /** A filter after a `take` of filtered items filters first, on a large array. */
  lemma {:induction false} FilterTakeFilter<T>(xs: seq<T>, p: T -> bool, n: nat, q: T -> bool)
    ensures Flagged([Filter(p), Take(n), Filter(q)]).None?
    ensures Value(Build(xs, [Filter(p), Take(n), Filter(q)]))
      == if |xs| >= LARGE_ARRAY_SIZE && n < |xs| then First(Filtered(q, Filtered(p, xs)), n)
         else ApplyAll([Filter(p), Take(n), Filter(q)], xs)
  {
    hide Filtered, First, ActAll, Fuse, One;
    FlaggedTwo(Filter(p), Take(n));
    FlaggedThree(Filter(p), Take(n), Filter(q));
    BuildThree(xs, Filter(p), Take(n), Filter(q));
    WrapSound(xs);
    var w0, m0 := Wrap(Plain(xs)), Flags(false, false, false, true, true);
    StageSound(w0, m0, Filter(p), xs, xs);
    var w1, m1 := ChainLazy(w0, Filter(p)), Advance(m0, Filter(p)).value;
    CountSound(w1, m1, n, xs, Filtered(p, xs));
    var w2 := ChainLazy(w1, Take(n));
    var w := ChainLazy(w2, Filter(q));
    ActSnoc(w2.actions, Do(Filter(q)), xs);
    if |xs| >= LARGE_ARRAY_SIZE && n < |xs| {
      assert xs[0..|xs|] == xs;
      FuseFilters(xs, p, q);
      assert w.stages == [Filter(p), Filter(q)];
    }
  }

  lemma {:induction false} FilteredParts<T>(q: T -> bool, ys: seq<T>, n: nat)
    requires n <= |ys|
    ensures Filtered(q, ys) == Filtered(q, ys[..n]) + Filtered(q, ys[n..])
    decreases |ys|
  {
    if n == |ys| {
      assert ys[..n] == ys && ys[n..] == [];
    } else {
      var k := |ys| - 1;
      FilteredParts(q, ys[..k], n);
      assert ys[..k][..n] == ys[..n];
      assert ys[n..][..k - n] == ys[..k][n..];
      assert ys[n..][k - n] == ys[k];
    }
  }

  lemma {:induction false} FilteredLength<T>(q: T -> bool, ys: seq<T>)
    ensures |Filtered(q, ys)| <= |ys|
    ensures All(q, ys) ==> Filtered(q, ys) == ys
    ensures |Filtered(q, ys)| == |ys| ==> All(q, ys)
  {
    if ys != [] {
      var init, v := ys[..|ys| - 1], ys[|ys| - 1];
      FilteredLength(q, init);
      assert ys == init + [v];
      AllSnoc(q, init, v);
    }
  }

  lemma {:induction false} FirstOfBoth<T>(a: seq<T>, b: seq<T>, n: nat)
    requires |a| <= n
    ensures First(a + b, n) == a <==> |a| == n || b == []
  {
    if |a| < n && b != [] {
      assert First(a + b, n)[|a|] == b[0];
    }
  }

  /** So it is right exactly if no taken item is filtered out, or none of the others would take its place. */
  lemma {:induction false} FilterTakeFilterRight<T>(xs: seq<T>, p: T -> bool, n: nat, q: T -> bool)
    requires |xs| >= LARGE_ARRAY_SIZE && n < |xs|
    ensures var ops := [Filter(p), Take(n), Filter(q)];
      var ys := Filtered(p, xs);
      Value(Build(xs, ops)) == ApplyAll(ops, xs) <==> n > |ys| || All(q, ys[..n]) || Filtered(q, ys[n..]) == []
  {
    hide Value, Build, Filtered, ApplyAll, Flagged, All;
    FilterTakeFilter(xs, p, n, q);
    BuildThree(xs, Filter(p), Take(n), Filter(q));
    var ys := Filtered(p, xs);
    if n <= |ys| {
      FilteredParts(q, ys, n);
      FilteredLength(q, ys[..n]);
      FirstOfBoth(Filtered(q, ys[..n]), Filtered(q, ys[n..]), n);
    } else {
      FilteredLength(q, ys);
      assert First(ys, n) == ys;
    }
  }
}