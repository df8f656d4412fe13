/** The loops that compute the value of a lazy wrapper. */
module LazyLoops {
  import opened LazyChain

  /** The bounds that the views leave of an array of length `n`. */
  method ComputeView(n: nat, views: seq<View>) returns (start: int, end: int)
    ensures (start, end) == GetView(n, views)
  {
    start, end := 0, n;
    for i := 0 to |views|
      invariant (start, end) == GetView(n, views[..i])
    {
      assert views[..i + 1] == views[..i] + [views[i]];
      ViewSnoc(n, views[..i], views[i]);
      var size := views[i].size;
      match views[i].side {
        case DropView => start := start + size;
        case DropRightView => end := end - size;
        case TakeView => end := Min(end, start + size);
        case TakeRightView => start := Max(start, end - size);
      }
    }
    assert views[..|views|] == views;
  }

  /** Sends one item through the stages. */
  method SendThrough<T>(item: T, stages: seq<Op<T>>) returns (o: Outcome<T>)
    ensures o == One(item, stages)
  {
    var value := item;
    for i := 0 to |stages|
      invariant One(item, stages[..i]) == Keep(value)
    {
      assert stages[..i + 1] == stages[..i] + [stages[i]];
      OneMore(item, stages[..i], stages[i]);
      match stages[i] {
        case Map(f) => value := f(value);
        case Filter(p) =>
          if !p(value) {
            Rejected(item, stages, i + 1);
            return Skip;
          }
        case TakeWhile(p) =>
          if !p(value) {
            Rejected(item, stages, i + 1);
            return Stop;
          }
        case _ =>
      }
    }
    assert stages[..|stages|] == stages;
    return Keep(value);
  }

  /** What is skipped or stops the loop at some stage does so whatever the later stages. */
  lemma {:induction false} Rejected<T>(item: T, stages: seq<Op<T>>, i: nat)
    requires i <= |stages| && !One(item, stages[..i]).Keep?
    ensures One(item, stages) == One(item, stages[..i])
    decreases |stages|
  {
    if i == |stages| {
      assert stages[..i] == stages;
    } else {
      var init := stages[..|stages| - 1];
      assert init[..i] == stages[..i];
      Rejected(item, init, i);
    }
  }

  /** Once stopped, the loop has all its results. */
  lemma {:induction false} StoppedIsFinal<T>(xs: seq<T>, stages: seq<Op<T>>, k: nat)
    requires k <= |xs| && Fuse(xs[..k], stages).1
    ensures Fuse(xs, stages) == Fuse(xs[..k], stages)
    decreases |xs|
  {
    if k == |xs| {
      assert xs[..k] == xs;
    } else {
      var init := xs[..|xs| - 1];
      assert init[..k] == xs[..k];
      StoppedIsFinal(init, stages, k);
    }
  }

  /** Later items only add results. */
  lemma {:induction false} ResultsGrow<T>(xs: seq<T>, stages: seq<Op<T>>, k: nat)
    requires k <= |xs|
    ensures Fuse(xs[..k], stages).0 <= Fuse(xs, stages).0
    ensures |Fuse(xs, stages).0| <= |xs|
    decreases |xs|
  {
    if k == |xs| {
      assert xs[..k] == xs;
      if xs != [] {
        ResultsGrow(xs[..k - 1], stages, k - 1);
      }
    } else {
      var init := xs[..|xs| - 1];
      assert init[..k] == xs[..k];
      ResultsGrow(init, stages, k);
    }
  }

  lemma {:induction false} FuseSnoc<T>(xs: seq<T>, stages: seq<Op<T>>, k: nat)
    requires k < |xs| && !Fuse(xs[..k], stages).1
    ensures Fuse(xs[..k + 1], stages) ==
      match One(xs[k], stages)
      case Keep(u) => (Fuse(xs[..k], stages).0 + [u], false)
      case Skip => (Fuse(xs[..k], stages).0, false)
      case Stop => (Fuse(xs[..k], stages).0, true)
  {
    assert xs[..k + 1][..k] == xs[..k];
  }

  /** Goes through the items in view, sends each through all stages, and stops as soon as enough are taken. */
  method FusedLoop<T>(w: Wrapper<T>, items: seq<T>) returns (result: seq<T>)
    ensures result == Fused(w, items)
  {
    hide One, Reversed;
    var start, end := ComputeView(|items|, w.views);
    ViewBounds(|items|, w.views);
    var length := end - start;
    var takeCount := if w.count.Some? then Min(length, w.count.value) else length;
    var index := if w.right then end else start - 1;
    ghost var xs := Viewed(w, items);
    ghost var k := 0;
    ViewedItems(w, items);
    result := [];
    while length > 0 && |result| < takeCount
      invariant length == end - start - k && 0 <= k <= |xs|
      invariant index == if w.right then end - k else start - 1 + k
      invariant Fuse(xs[..k], w.stages) == (result, false)
      invariant |result| <= Max(takeCount, 0)
      decreases length
    {
      length := length - 1;
      index := index + if w.right then -1 else 1;
      assert items[index] == xs[k];
      var o := SendThrough(items[index], w.stages);
      FuseSnoc(xs, w.stages, k);
      if o.Stop? {
        StoppedIsFinal(xs, w.stages, k + 1);
        return;
      }
      if o.Keep? {
        result := result + [o.value];
      }
      k := k + 1;
    }
    ResultsGrow(xs, w.stages, k);
    ResultsGrow(xs[..k], w.stages, 0);
    assert k == |xs| ==> xs[..k] == xs;
  }

  lemma {:induction false} ViewedItems<T>(w: Wrapper<T>, items: seq<T>)
    ensures var (start, end) := GetView(|items|, w.views);
      var xs := Viewed(w, items);
      && |xs| == Max(end - start, 0)
      && forall k :: 0 <= k < |xs| ==>
           0 <= start && end <= |items| && xs[k] == if w.right then items[end - 1 - k] else items[start + k]
  {
    ViewBounds(|items|, w.views);
  }

  /** Carries out the recorded operations one by one. */
  method RunActions<T>(actions: seq<Action<T>>, items: seq<T>) returns (result: seq<T>)
    ensures result == ActAll(actions, items)
  {
    result := items;
    for i := 0 to |actions|
      invariant result == ActAll(actions[..i], items)
    {
      assert actions[..i + 1] == actions[..i] + [actions[i]];
      ActSnoc(actions[..i], actions[i], items);
      result := Act(actions[i], result);
    }
    assert actions[..|actions|] == actions;
  }

  method LazyValue<T>(w: Wrapper<T>) returns (result: seq<T>)
    ensures result == Value(w)
    decreases w
  {
    hide ActAll, Fused, GetView;
    var items;
    match w.source {
      case Plain(xs) => items := xs;
      case Inner(inner) => items := LazyValue(inner);
    }
    var start, end := ComputeView(|items|, w.views);
    var length := end - start;
    var takeCount := if w.count.Some? then Min(length, w.count.value) else length;
    if |items| < LARGE_ARRAY_SIZE || (|items| == length && takeCount == length) {
      result := RunActions(w.actions, if w.right then Reversed(items) else items);
    } else {
      result := FusedLoop(w, items);
    }
  }
}
