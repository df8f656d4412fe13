/** Chained array operations: the lazily built wrapper and its fused loop, against the operations done one by one. */
module LazyChain {
  import opened Wrappers

  const LARGE_ARRAY_SIZE: nat := 200

  datatype Op<!T> =
    | Drop(n: nat)
    | DropRight(n: nat)
    | Take(n: nat)
    | TakeRight(n: nat)
    | Reverse
    | Map(f: T -> T)
    | Filter(p: T -> bool)
    | TakeWhile(p: T -> bool)

  // ---------------------------------------------------------------- one by one

  function Min(a: int, b: int): int { if a < b then a else b }

  function Max(a: int, b: int): int { if a < b then b else a }

  function Reversed<T>(xs: seq<T>): (r: seq<T>)
    ensures |r| == |xs|
  {
    seq(|xs|, i requires 0 <= i < |xs| => xs[|xs| - 1 - i])
  }

  function Mapped<T>(f: T -> T, xs: seq<T>): (r: seq<T>)
    ensures |r| == |xs|
  {
    seq(|xs|, i requires 0 <= i < |xs| => f(xs[i]))
  }

  function Filtered<T>(p: T -> bool, xs: seq<T>): seq<T> {
    if xs == [] then []
    else Filtered(p, xs[..|xs| - 1]) + if p(xs[|xs| - 1]) then [xs[|xs| - 1]] else []
  }

  predicate All<T>(p: T -> bool, xs: seq<T>) { forall i :: 0 <= i < |xs| ==> p(xs[i]) }

  /** The longest prefix of which all items satisfy `p`. */
  function While<T>(p: T -> bool, xs: seq<T>): seq<T> {
    if All(p, xs) then xs else assert xs != []; While(p, xs[..|xs| - 1])
  }

  function First<T>(xs: seq<T>, n: nat): seq<T> { xs[..Min(n, |xs|)] }

  function Apply<T>(op: Op<T>, xs: seq<T>): seq<T> {
    match op
    case Drop(n) => xs[Min(n, |xs|)..]
    case DropRight(n) => xs[..Max(|xs| - n, 0)]
    case Take(n) => First(xs, n)
    case TakeRight(n) => xs[Max(|xs| - n, 0)..]
    case Reverse => Reversed(xs)
    case Map(f) => Mapped(f, xs)
    case Filter(p) => Filtered(p, xs)
    case TakeWhile(p) => While(p, xs)
  }

  function ApplyAll<T>(ops: seq<Op<T>>, xs: seq<T>): seq<T> {
    if ops == [] then xs else Apply(ops[|ops| - 1], ApplyAll(ops[..|ops| - 1], xs))
  }

  // ---------------------------------------------------------------- the wrapper

  datatype Source<!T> = Plain(items: seq<T>) | Inner(wrapper: Wrapper<T>)

  datatype Side = DropView | DropRightView | TakeView | TakeRightView

  datatype View = View(side: Side, size: nat)

  /** `Same` stands for the callback of a reversal that leaves its argument alone. */
  datatype Action<!T> = Do(op: Op<T>) | Same

  /** `stages` only holds `Map`, `Filter` and `TakeWhile`; without a `count` any number of items is taken. */
  datatype Wrapper<!T> = Wrapper(
    source: Source<T>, right: bool, filtered: bool, stages: seq<Op<T>>, count: Option<nat>, views: seq<View>,
    actions: seq<Action<T>>)

  function Wrap<T>(source: Source<T>): Wrapper<T> { Wrapper(source, false, false, [], None, [], []) }

  function LazyReverse<T>(w: Wrapper<T>): Wrapper<T> {
    if w.filtered then Wrap(Inner(w)).(right := true, filtered := true) else w.(right := !w.right)
  }

  function LazyDrop<T>(w: Wrapper<T>, n: nat): Wrapper<T> {
    if w.filtered then Wrap(Inner(w))
    else w.(views := w.views + [View(if w.right then DropRightView else DropView, n)])
  }

  function LazyTake<T>(w: Wrapper<T>, n: nat): Wrapper<T> {
    if w.filtered then w.(count := Some(match w.count case None => n case Some(c) => if c < n then c else n))
    else w.(views := w.views + [View(if w.right then TakeRightView else TakeView, n)])
  }

  function LazyStage<T>(w: Wrapper<T>, stage: Op<T>): Wrapper<T> {
    w.(stages := w.stages + [stage], filtered := w.filtered || !stage.Map?)
  }

  /** A chained call on a lazy wrapper: the lazy operation, with the plain operation recorded beside it. */
  function ChainLazy<T>(w: Wrapper<T>, op: Op<T>): Wrapper<T> {
    var w' := match op
      case Drop(n) => LazyDrop(w, n)
      case DropRight(n) => LazyReverse(LazyDrop(LazyReverse(w), n))
      case Take(n) => LazyTake(w, n)
      case TakeRight(n) => LazyReverse(LazyTake(LazyReverse(w), n))
      case Reverse => LazyReverse(w)
      case _ => LazyStage(w, op);
    w'.(actions := w'.actions + [if op.Reverse? && w'.right then Same else Do(op)])
  }

  /** Before any lazy operation, `reverse` reverses the array itself. */
  function Chain<T>(w: Wrapper<T>, op: Op<T>): Wrapper<T> {
    if op.Reverse? && w.actions == [] && w.source.Plain?
    then Wrap(Plain(Reversed(w.source.items)))
    else ChainLazy(w, op)
  }

  function Build<T>(xs: seq<T>, ops: seq<Op<T>>): Wrapper<T> {
    if ops == [] then Wrap(Plain(xs)) else Chain(Build(xs, ops[..|ops| - 1]), ops[|ops| - 1])
  }

  /** The bounds that the views leave of an array of length `n`. */
  function GetView(n: nat, views: seq<View>): (int, int) {
    if views == [] then (0, n)
    else
      var (start, end) := GetView(n, views[..|views| - 1]);
      var v := views[|views| - 1];
      match v.side
      case DropView => (start + v.size, end)
      case DropRightView => (start, end - v.size)
      case TakeView => (start, Min(end, start + v.size))
      case TakeRightView => (Max(start, end - v.size), end)
  }

  // ---------------------------------------------------------------- the value of a wrapper

  datatype Outcome<T> = Keep(value: T) | Skip | Stop

  /** What becomes of one item. */
  function One<T>(v: T, stages: seq<Op<T>>): Outcome<T> {
    if stages == [] then Keep(v)
    else
      match One(v, stages[..|stages| - 1])
      case Skip => Skip
      case Stop => Stop
      case Keep(u) =>
        match stages[|stages| - 1]
        case Map(f) => Keep(f(u))
        case Filter(p) => if p(u) then Keep(u) else Skip
        case TakeWhile(p) => if p(u) then Keep(u) else Stop
        case _ => Keep(u)
  }

  /** All results, and whether some item stopped the loop. */
  function Fuse<T>(xs: seq<T>, stages: seq<Op<T>>): (seq<T>, bool) {
    if xs == [] then ([], false)
    else
      var (r, stopped) := Fuse(xs[..|xs| - 1], stages);
      if stopped then (r, true)
      else
        match One(xs[|xs| - 1], stages)
        case Keep(u) => (r + [u], false)
        case Skip => (r, false)
        case Stop => (r, true)
  }

  function Range<T>(items: seq<T>, start: int, end: int): seq<T> {
    if 0 <= start <= end <= |items| then items[start..end] else []
  }

  /** The items in view, in the order of the iteration. */
  function Viewed<T>(w: Wrapper<T>, items: seq<T>): seq<T> {
    var (start, end) := GetView(|items|, w.views);
    if w.right then Reversed(Range(items, start, end)) else Range(items, start, end)
  }

  function Counted<T>(xs: seq<T>, count: Option<nat>): seq<T> {
    match count case None => xs case Some(n) => First(xs, n)
  }

  function Fused<T>(w: Wrapper<T>, items: seq<T>): seq<T> { Counted(Fuse(Viewed(w, items), w.stages).0, w.count) }

  function Act<T>(a: Action<T>, xs: seq<T>): seq<T> { match a case Do(op) => Apply(op, xs) case Same => xs }

  function ActAll<T>(actions: seq<Action<T>>, xs: seq<T>): seq<T> {
    if actions == [] then xs else Act(actions[|actions| - 1], ActAll(actions[..|actions| - 1], xs))
  }

  /** Small arrays, and those of which all is taken, go through the recorded operations one by one. */
  predicate OneByOne<T>(w: Wrapper<T>, items: seq<T>) {
    var (start, end) := GetView(|items|, w.views);
    |items| < LARGE_ARRAY_SIZE
    || (|items| == end - start && (w.count.None? || w.count.value >= end - start))
  }

  function Finish<T>(w: Wrapper<T>, items: seq<T>): seq<T> {
    if OneByOne(w, items) then ActAll(w.actions, if w.right then Reversed(items) else items) else Fused(w, items)
  }

  function Value<T>(w: Wrapper<T>): seq<T> {
    Finish(w, SourceItems(w.source))
  }

  function SourceItems<T>(source: Source<T>): seq<T> {
    match source case Plain(items) => items case Inner(inner) => Value(inner)
  }

  // ---------------------------------------------------------------- the fused loop

  predicate Stage<T>(op: Op<T>) { op.Map? || op.Filter? || op.TakeWhile? }

  lemma {:induction false} AllSnoc<T>(p: T -> bool, xs: seq<T>, v: T)
    ensures All(p, xs + [v]) <==> All(p, xs) && p(v)
  {
    assert (xs + [v])[|xs|] == v;
    assert forall i :: 0 <= i < |xs| ==> (xs + [v])[i] == xs[i];
  }

  lemma {:induction false} WhileSnoc<T>(p: T -> bool, xs: seq<T>, v: T)
    ensures While(p, xs + [v]) == if All(p, xs) then (if p(v) then xs + [v] else xs) else While(p, xs)
  {
    AllSnoc(p, xs, v);
    assert (xs + [v])[..|xs|] == xs;
  }

  lemma {:induction false} OneMore<T>(v: T, stages: seq<Op<T>>, op: Op<T>)
    ensures One(v, stages + [op]) ==
      match One(v, stages)
      case Skip => Skip
      case Stop => Stop
      case Keep(u) =>
        match op
        case Map(f) => Keep(f(u))
        case Filter(p) => if p(u) then Keep(u) else Skip
        case TakeWhile(p) => if p(u) then Keep(u) else Stop
        case _ => Keep(u)
  {
    assert (stages + [op])[..|stages|] == stages;
  }

  lemma {:induction false} ApplySnoc<T>(op: Op<T>, xs: seq<T>, v: T)
    requires Stage(op)
    ensures Apply(op, xs + [v]) ==
      match op
      case Map(f) => Apply(op, xs) + [f(v)]
      case Filter(p) => Apply(op, xs) + if p(v) then [v] else []
      case TakeWhile(p) => if All(p, xs) then (if p(v) then xs + [v] else xs) else While(p, xs)
      case _ => xs
  {
    assert (xs + [v])[..|xs|] == xs;
    if op.TakeWhile? {
      WhileSnoc(op.p, xs, v);
    }
  }

  /** One more stage in the fused loop does to the results what the operation does to the array. */
  lemma {:induction false} FuseStage<T>(xs: seq<T>, stages: seq<Op<T>>, op: Op<T>)
    requires Stage(op)
    ensures var (r, stopped) := Fuse(xs, stages);
      var (r', stopped') := Fuse(xs, stages + [op]);
      r' == Apply(op, r) && (stopped' <==> stopped || (op.TakeWhile? && !All(op.p, r)))
  {
    hide One, Apply;
    if xs == [] {
      NothingIn(op);
    } else {
      var init, v := xs[..|xs| - 1], xs[|xs| - 1];
      FuseStage(init, stages, op);
      OneMore(v, stages, op);
      var (r, stopped) := Fuse(init, stages);
      match One(v, stages)
      case Keep(u) =>
        ApplySnoc(op, r, u);
        if op.TakeWhile? {
          AllSnoc(op.p, r, u);
          AllWhile(op.p, r);
        }
      case _ =>
    }
  }

  lemma {:induction false} NothingIn<T>(op: Op<T>)
    requires Stage(op)
    ensures Apply(op, []) == []
  {
  }

  lemma {:induction false} AllWhile<T>(p: T -> bool, xs: seq<T>)
    ensures Apply(TakeWhile(p), xs) == While(p, xs) && (All(p, xs) ==> While(p, xs) == xs)
  {
  }

  predicate AllMaps<T>(stages: seq<Op<T>>) { forall i :: 0 <= i < |stages| ==> stages[i].Map? }

  lemma {:induction false} OneMaps<T>(v: T, stages: seq<Op<T>>)
    requires AllMaps(stages)
    ensures One(v, stages).Keep?
  {
    if stages != [] {
      OneMaps(v, stages[..|stages| - 1]);
    }
  }

  /** With nothing but maps, the loop has one result for every item. */
  lemma {:induction false} FuseMaps<T>(xs: seq<T>, stages: seq<Op<T>>)
    requires AllMaps(stages)
    ensures !Fuse(xs, stages).1 && |Fuse(xs, stages).0| == |xs|
    ensures forall i :: 0 <= i < |xs| ==> One(xs[i], stages) == Keep(Fuse(xs, stages).0[i])
  {
    if xs != [] {
      FuseMaps(xs[..|xs| - 1], stages);
      OneMaps(xs[|xs| - 1], stages);
    }
  }

  // ---------------------------------------------------------------- views

  lemma {:induction false} ViewBounds(n: nat, views: seq<View>)
    ensures GetView(n, views).0 >= 0 && GetView(n, views).1 <= n
  {
    if views != [] {
      ViewBounds(n, views[..|views| - 1]);
    }
  }

  lemma {:induction false} ViewSnoc(n: nat, views: seq<View>, v: View)
    ensures GetView(n, views + [v]) ==
      var (start, end) := GetView(n, views);
      match v.side
      case DropView => (start + v.size, end)
      case DropRightView => (start, end - v.size)
      case TakeView => (start, Min(end, start + v.size))
      case TakeRightView => (Max(start, end - v.size), end)
  {
    assert (views + [v])[..|views|] == views;
  }

  lemma {:induction false} RangeDrop<T>(items: seq<T>, start: int, end: int, n: nat)
    requires 0 <= start && end <= |items|
    ensures Range(items, start + n, end) == Apply(Drop(n), Range(items, start, end))
    ensures Range(items, start, end - n) == Apply(DropRight(n), Range(items, start, end))
  {
  }

  lemma {:induction false} RangeTake<T>(items: seq<T>, start: int, end: int, n: nat)
    requires 0 <= start && end <= |items|
    ensures Range(items, start, Min(end, start + n)) == Apply(Take(n), Range(items, start, end))
    ensures Range(items, Max(start, end - n), end) == Apply(TakeRight(n), Range(items, start, end))
  {
  }

  /** What is done on the right is done on the left of the reversed items. */
  lemma {:induction false} Mirrored<T>(xs: seq<T>, n: nat)
    ensures Reversed(Apply(DropRight(n), xs)) == Apply(Drop(n), Reversed(xs))
    ensures Reversed(Apply(TakeRight(n), xs)) == Apply(Take(n), Reversed(xs))
  {
  }

  lemma {:induction false} ViewedDrop<T>(w: Wrapper<T>, n: nat, items: seq<T>)
    requires !w.filtered
    ensures Viewed(LazyDrop(w, n), items) == Apply(Drop(n), Viewed(w, items))
  {
    hide Apply, Range, GetView, Reversed;
    ViewBounds(|items|, w.views);
    ViewSnoc(|items|, w.views, View(if w.right then DropRightView else DropView, n));
    var (start, end) := GetView(|items|, w.views);
    RangeDrop(items, start, end, n);
    Mirrored(Range(items, start, end), n);
  }

  lemma {:induction false} ViewedTake<T>(w: Wrapper<T>, n: nat, items: seq<T>)
    requires !w.filtered
    ensures Viewed(LazyTake(w, n), items) == Apply(Take(n), Viewed(w, items))
  {
    hide Apply, Range, GetView, Reversed;
    ViewBounds(|items|, w.views);
    ViewSnoc(|items|, w.views, View(if w.right then TakeRightView else TakeView, n));
    var (start, end) := GetView(|items|, w.views);
    RangeTake(items, start, end, n);
    Mirrored(Range(items, start, end), n);
  }

  lemma {:induction false} ReversedTwice<T>(xs: seq<T>)
    ensures Reversed(Reversed(xs)) == xs
  {
  }

  lemma {:induction false} ViewedReverse<T>(w: Wrapper<T>, items: seq<T>)
    requires !w.filtered
    ensures Viewed(LazyReverse(w), items) == Reversed(Viewed(w, items))
  {
    hide Range, Reversed;
    var (start, end) := GetView(|items|, w.views);
    ReversedTwice(Range(items, start, end));
  }

  lemma {:induction false} FuseCut<T>(xs: seq<T>, stages: seq<Op<T>>, op: Op<T>)
    requires AllMaps(stages) && (op.Drop? || op.DropRight? || op.Take? || op.TakeRight? || op.Reverse?)
    ensures Fuse(Apply(op, xs), stages).0 == Apply(op, Fuse(xs, stages).0)
  {
    FuseMaps(xs, stages);
    FuseMaps(Apply(op, xs), stages);
    var r, r' := Apply(op, Fuse(xs, stages).0), Fuse(Apply(op, xs), stages).0;
    forall i | 0 <= i < |r|
      ensures r[i] == r'[i]
    {
      assert Keep(r[i]) == Keep(r'[i]);
    }
  }

  lemma {:induction false} SameView<T>(w: Wrapper<T>, w': Wrapper<T>, items: seq<T>)
    requires w'.views == w.views && w'.right == w.right
    ensures Viewed(w', items) == Viewed(w, items)
  {
  }

  /** Before any filtering, the lazy operation does to the view what the operation does to the array. */
  lemma {:induction false} ViewedCut<T>(w: Wrapper<T>, op: Op<T>, items: seq<T>)
    requires !w.filtered && (op.Drop? || op.DropRight? || op.Take? || op.TakeRight? || op.Reverse?)
    ensures Viewed(ChainLazy(w, op), items) == Apply(op, Viewed(w, items))
  {
    hide Viewed, GetView, Apply, Reversed;
    var r, xs := LazyReverse(w), Viewed(w, items);
    ViewedReverse(w, items);
    ReversedTwice(xs);
    match op
    case Drop(n) =>
      ViewedDrop(w, n, items);
      SameView(LazyDrop(w, n), ChainLazy(w, op), items);
    case DropRight(n) =>
      ViewedDrop(r, n, items);
      ViewedReverse(LazyDrop(r, n), items);
      Mirrored(xs, n);
      ReversedTwice(Apply(op, xs));
      SameView(LazyReverse(LazyDrop(r, n)), ChainLazy(w, op), items);
    case Take(n) =>
      ViewedTake(w, n, items);
      SameView(LazyTake(w, n), ChainLazy(w, op), items);
    case TakeRight(n) =>
      ViewedTake(r, n, items);
      ViewedReverse(LazyTake(r, n), items);
      Mirrored(xs, n);
      ReversedTwice(Apply(op, xs));
      SameView(LazyReverse(LazyTake(r, n)), ChainLazy(w, op), items);
    case _ =>
      ReverseIs(xs);
      SameView(r, ChainLazy(w, op), items);
  }

  lemma {:induction false} ReverseIs<T>(xs: seq<T>)
    ensures Apply(Reverse, xs) == Reversed(xs)
  {
  }

  // ---------------------------------------------------------------- which chains are safe

  /** What the operations so far have left: whether the wrapper filters and has a count, whether it owes a `drop` that
      only its recorded operations know of, whether those are all maps, and whether there are none. */
  datatype Flags = Flags(filtered: bool, counted: bool, owes: bool, mapsOnly: bool, untouched: bool)

  /** The flags after one more operation, or none if its result could be wrong. */
  function Advance<T>(m: Flags, op: Op<T>): Option<Flags> {
    match op
    case Map(_) => Some(m.(untouched := false))
    case Filter(_) => if m.counted then None else Some(m.(filtered := true, mapsOnly := false, untouched := false))
    case TakeWhile(_) => Some(m.(filtered := true, mapsOnly := false, untouched := false))
    case Take(_) => if m.owes then None else Some(m.(counted := m.filtered, mapsOnly := false, untouched := false))
    case TakeRight(_) =>
      if m.filtered then Some(Flags(true, false, false, false, false))
      else if m.owes then None else Some(m.(mapsOnly := false, untouched := false))
    case Reverse =>
      if m.untouched then Some(m)
      else if m.filtered then Some(Flags(true, false, false, false, false))
      else if m.owes || !m.mapsOnly then None else Some(m.(mapsOnly := false, untouched := false))
    case _ =>
      if m.filtered then Some(Flags(false, false, true, false, false))
      else if m.owes then None else Some(m.(mapsOnly := false, untouched := false))
  }

  function Flagged<T>(ops: seq<Op<T>>): Option<Flags> {
    if ops == [] then Some(Flags(false, false, false, true, true))
    else
      match Flagged(ops[..|ops| - 1])
      case None => None
      case Some(m) => Advance(m, ops[|ops| - 1])
  }

  ghost predicate AllStages<T>(stages: seq<Op<T>>) { forall i :: 0 <= i < |stages| ==> Stage(stages[i]) }

  ghost predicate OnlyMaps<T>(actions: seq<Action<T>>) {
    forall i :: 0 <= i < |actions| ==> actions[i].Do? && actions[i].op.Map?
  }

  /** What the flags promise about a wrapper of `items` that stands for `xs`. */
  ghost predicate Sound<T>(w: Wrapper<T>, m: Flags, items: seq<T>, xs: seq<T>) {
    && m.filtered == w.filtered && m.counted == w.count.Some? && AllStages(w.stages)
    && (!m.filtered ==> AllMaps(w.stages) && w.count.None?)
    && (m.owes ==> w.views == [] && w.count.None?)
    && (m.mapsOnly ==> !m.filtered && !w.right && w.views == [] && OnlyMaps(w.actions))
    && ActAll(w.actions, if w.right then Reversed(items) else items) == xs
    && (!m.owes && |items| >= LARGE_ARRAY_SIZE ==> Fused(w, items) == xs)
    && (if m.untouched then w == Wrap(Plain(items)) && m == Flags(false, false, false, true, true) else w.actions != [])
  }

  lemma {:induction false} SoundValue<T>(w: Wrapper<T>, m: Flags, items: seq<T>, xs: seq<T>)
    requires Sound(w, m, items, xs)
    ensures Finish(w, items) == xs
  {
    hide Fused;
  }

  lemma {:induction false} ActSnoc<T>(actions: seq<Action<T>>, a: Action<T>, xs: seq<T>)
    ensures ActAll(actions + [a], xs) == Act(a, ActAll(actions, xs))
  {
    assert (actions + [a])[..|actions|] == actions;
  }

  lemma {:induction false} CountedStage<T>(xs: seq<T>, count: Option<nat>, op: Op<T>)
    requires Stage(op) && (op.Filter? ==> count.None?)
    ensures Apply(op, Counted(xs, count)) == Counted(Apply(op, xs), count)
  {
    if op.TakeWhile? && count.Some? {
      WhileFirst(op.p, xs, count.value);
    }
  }

  /** The good prefix of the first `n` items is the first `n` items of the good prefix. */
  lemma {:induction false} WhileFirst<T>(p: T -> bool, xs: seq<T>, n: nat)
    ensures While(p, First(xs, n)) == First(While(p, xs), n)
  {
    if n >= |xs| {
      assert First(xs, n) == xs;
      WhileShorter(p, xs);
    } else if All(p, xs) {
      assert All(p, First(xs, n));
    } else {
      WhileFirst(p, xs[..|xs| - 1], n);
      assert First(xs[..|xs| - 1], n) == First(xs, n);
    }
  }

  lemma {:induction false} WhileShorter<T>(p: T -> bool, xs: seq<T>)
    ensures |While(p, xs)| <= |xs|
  {
    if !All(p, xs) {
      WhileShorter(p, xs[..|xs| - 1]);
    }
  }

  /** One more stage does to the output of the loop what the operation does to an array. */
  lemma {:induction false} FusedStage<T>(w: Wrapper<T>, op: Op<T>, items: seq<T>)
    requires Stage(op) && (op.Filter? ==> w.count.None?)
    ensures Fused(ChainLazy(w, op), items) == Apply(op, Fused(w, items))
  {
    hide Apply, Counted, Viewed, Fuse;
    FuseStage(Viewed(w, items), w.stages, op);
    CountedStage(Fuse(Viewed(w, items), w.stages).0, w.count, op);
    SameView(w, ChainLazy(w, op), items);
  }

  /** So does a count. */
  lemma {:induction false} FusedCount<T>(w: Wrapper<T>, n: nat, items: seq<T>)
    requires w.filtered
    ensures Fused(ChainLazy(w, Take(n)), items) == Apply(Take(n), Fused(w, items))
  {
    hide Apply, Counted, Viewed, Fuse;
    FirstFirst(Fuse(Viewed(w, items), w.stages).0, w.count, n);
    SameView(w, ChainLazy(w, Take(n)), items);
  }

  /** And so does a cut or reversal before any filtering. */
  lemma {:induction false} FusedCut<T>(w: Wrapper<T>, op: Op<T>, items: seq<T>)
    requires !w.filtered && AllMaps(w.stages) && w.count.None?
    requires op.Drop? || op.DropRight? || op.Take? || op.TakeRight? || op.Reverse?
    ensures Fused(ChainLazy(w, op), items) == Apply(op, Fused(w, items))
  {
    hide Apply, Viewed, Fuse;
    ViewedCut(w, op, items);
    FuseCut(Viewed(w, items), w.stages, op);
  }

  lemma {:induction false} StageSound<T>(w: Wrapper<T>, m: Flags, op: Op<T>, items: seq<T>, xs: seq<T>)
    requires Sound(w, m, items, xs) && Stage(op) && Advance(m, op).Some?
    ensures Sound(ChainLazy(w, op), Advance(m, op).value, items, Apply(op, xs))
  {
    hide Apply, ActAll, Fused;
    ActSnoc(w.actions, Do(op), if w.right then Reversed(items) else items);
    FusedStage(w, op, items);
    StageLists(w, op);
  }

  lemma {:induction false} StageLists<T>(w: Wrapper<T>, op: Op<T>)
    requires Stage(op) && AllStages(w.stages)
    ensures AllStages(w.stages + [op]) && (op.Map? && AllMaps(w.stages) ==> AllMaps(w.stages + [op]))
    ensures op.Map? && OnlyMaps(w.actions) ==> OnlyMaps(w.actions + [Do(op)])
    ensures Stage(op)
  {
  }

  lemma {:induction false} FirstFirst<T>(xs: seq<T>, count: Option<nat>, n: nat)
    ensures Apply(Take(n), Counted(xs, count))
      == Counted(xs, Some(match count case None => n case Some(c) => if c < n then c else n))
  {
  }

  lemma {:induction false} CountSound<T>(w: Wrapper<T>, m: Flags, n: nat, items: seq<T>, xs: seq<T>)
    requires Sound(w, m, items, xs) && m.filtered && !m.owes
    ensures Sound(ChainLazy(w, Take(n)), Advance(m, Op<T>.Take(n)).value, items, Apply(Take(n), xs))
  {
    hide Apply, ActAll, Fused, Stage;
    ActSnoc(w.actions, Do(Take(n)), if w.right then Reversed(items) else items);
    FusedCount(w, n, items);
  }

  lemma {:induction false} CutSound<T>(w: Wrapper<T>, m: Flags, op: Op<T>, items: seq<T>, xs: seq<T>)
    requires Sound(w, m, items, xs) && !m.filtered && !m.owes
      && (op.Drop? || op.DropRight? || op.Take? || op.TakeRight?)
    ensures Sound(ChainLazy(w, op), m.(mapsOnly := false, untouched := false), items, Apply(op, xs))
  {
    hide Apply, ActAll, Fused, Stage;
    ActSnoc(w.actions, Do(op), if w.right then Reversed(items) else items);
    FusedCut(w, op, items);
  }

  lemma {:induction false} MapsReversed<T>(actions: seq<Action<T>>, xs: seq<T>)
    requires OnlyMaps(actions)
    ensures ActAll(actions, Reversed(xs)) == Reversed(ActAll(actions, xs))
  {
    if actions != [] {
      MapsReversed(actions[..|actions| - 1], xs);
    }
  }

  lemma {:induction false} ReverseSound<T>(w: Wrapper<T>, m: Flags, items: seq<T>, xs: seq<T>)
    requires Sound(w, m, items, xs) && !m.filtered && !m.owes && m.mapsOnly
    ensures Sound(ChainLazy(w, Reverse), m.(mapsOnly := false, untouched := false), items, Apply(Reverse, xs))
  {
    hide ActAll, Fused, Stage;
    ActSnoc(w.actions, Same, Reversed(items));
    MapsReversed(w.actions, items);
    FusedCut(w, Reverse, items);
  }

  lemma {:induction false} NoStages<T>(xs: seq<T>)
    ensures Fuse(xs, []) == (xs, false)
  {
    if xs != [] {
      assert xs == xs[..|xs| - 1] + [xs[|xs| - 1]];
      NoStages(xs[..|xs| - 1]);
    }
  }

  /** A wrapper without views and stages lists its items as they are, or backwards. */
  lemma {:induction false} BareFused<T>(w: Wrapper<T>, items: seq<T>)
    requires w.views == [] && w.stages == []
    ensures Fused(w, items) == Counted(if w.right then Reversed(items) else items, w.count)
  {
    assert items[0..|items|] == items;
    NoStages(if w.right then Reversed(items) else items);
  }

  lemma {:induction false} BareActions<T>(op: Op<T>, items: seq<T>)
    ensures ActAll([], items) == items && ActAll([] + [Same], items) == items
      && ActAll([] + [Do(op)], items) == Apply(op, items)
  {
    ActSnoc([], Same, items);
    ActSnoc([], Do(op), items);
  }

  /** A wrapper that has just been made of another one stands for what its one recorded operation does. */
  lemma {:induction false} FreshSound<T>(c: Wrapper<T>, m: Flags, items: seq<T>, xs: seq<T>)
    requires c.views == [] && c.stages == [] && c.count.None? && !m.counted && !m.mapsOnly && !m.untouched
      && m.filtered == c.filtered
    requires |c.actions| == 1 && Act(c.actions[0], if c.right then Reversed(items) else items) == xs
    requires !m.owes && |items| >= LARGE_ARRAY_SIZE ==> xs == if c.right then Reversed(items) else items
    ensures Sound(c, m, items, xs)
  {
    hide Act, Fused, Reversed;
    var start := if c.right then Reversed(items) else items;
    assert c.actions == [] + [c.actions[0]];
    ActSnoc([], c.actions[0], start);
    BareFused(c, items);
  }

  lemma {:induction false} BareValue<T>(w: Wrapper<T>, items: seq<T>)
    requires w.views == [] && w.stages == [] && w.actions == [] && items == SourceItems(w.source)
    ensures Value(w) == Counted(if w.right then Reversed(items) else items, w.count)
      || (|items| < LARGE_ARRAY_SIZE && Value(w) == if w.right then Reversed(items) else items)
  {
    BareFused(w, items);
  }

  lemma {:induction false} RewrapTake<T>(w: Wrapper<T>, n: nat, xs: seq<T>)
    requires w.filtered && Value(w) == xs
    ensures var c := ChainLazy(w, TakeRight(n));
      Sound(c, Flags(true, false, false, false, false), SourceItems(c.source), Apply(TakeRight(n), xs))
  {
    hide Apply, Value, Fused, ActAll, Act, Sound;
    var c := ChainLazy(w, TakeRight(n));
    var inner := LazyTake(LazyReverse(w), n);
    BareValue(inner, xs);
    var items := Value(inner);
    ReversedTwice(xs);
    LastOfLast(xs, n);
    DoTakes(n, Reversed(items));
    assert c.actions == [Do(Op<T>.TakeRight(n))] by {
      assert [] + [Do(Op<T>.TakeRight(n))] == [Do(Op<T>.TakeRight(n))];
    }
    FreshSound(c, Flags(true, false, false, false, false), items, Apply(TakeRight(n), xs));
  }

  lemma {:induction false} DoTakes<T>(n: nat, xs: seq<T>)
    ensures Act(Do(Op<T>.TakeRight(n)), xs) == Apply(TakeRight(n), xs)
  {
  }

  /** The last `n` of the last `n`. */
  lemma {:induction false} LastOfLast<T>(xs: seq<T>, n: nat)
    ensures Reversed(First(Reversed(xs), n)) == Apply(TakeRight(n), xs)
    ensures Apply(TakeRight(n), Apply(TakeRight(n), xs)) == Apply(TakeRight(n), xs)
  {
  }

  // ---------------------------------------------------------------- the main result

  lemma {:induction false} ChainLazySound<T>(w: Wrapper<T>, m: Flags, op: Op<T>, xs: seq<T>)
    requires Sound(w, m, SourceItems(w.source), xs) && Advance(m, op).Some? && !(op.Reverse? && m.untouched)
    ensures Sound(ChainLazy(w, op), Advance(m, op).value, SourceItems(ChainLazy(w, op).source), Apply(op, xs))
  {
    hide Sound, ChainLazy, Apply, SourceItems, Value;
    var items := SourceItems(w.source);
    SoundValue(w, m, items, xs);
    SameFlag(w, m, op, items, xs);
    if Stage(op) {
      StageSound(w, m, op, items, xs);
    } else if op.Take? && m.filtered {
      CountSound(w, m, op.n, items, xs);
    } else if m.filtered && op.TakeRight? {
      ValueIs(w);
      RewrapTake(w, op.n, xs);
    } else if m.filtered {
      ValueIs(w);
      ReversedTwice(xs);
      ReverseIs(xs);
      InnerItems(w);
      BareValue(LazyReverse(w), xs);
      Rewrapped(w, op, xs);
      FreshSound(ChainLazy(w, op), Advance(m, op).value, if op.DropRight? then Reversed(xs) else xs, Apply(op, xs));
    } else if op.Reverse? {
      ReverseSound(w, m, items, xs);
    } else {
      CutSound(w, m, op, items, xs);
    }
  }

  lemma {:induction false} ChainSound<T>(w: Wrapper<T>, m: Flags, op: Op<T>, xs: seq<T>)
    requires Sound(w, m, SourceItems(w.source), xs) && Advance(m, op).Some?
    ensures Sound(Chain(w, op), Advance(m, op).value, SourceItems(Chain(w, op).source), Apply(op, xs))
  {
    hide Sound, Apply, SourceItems, ChainLazy, Advance;
    FreshOrNot(w, m, op, xs);
    if op.Reverse? && m.untouched {
      ReverseIs(xs);
      WrapSound(Reversed(xs));
    } else {
      ChainLazySound(w, m, op, xs);
    }
  }

  lemma {:induction false} FreshOrNot<T>(w: Wrapper<T>, m: Flags, op: Op<T>, xs: seq<T>)
    requires Sound(w, m, SourceItems(w.source), xs)
    ensures if m.untouched then w == Wrap(Plain(xs)) else w.actions != []
    ensures op.Reverse? && m.untouched ==> m == Flags(false, false, false, true, true) && Advance(m, op) == Some(m)
  {
    if m.untouched {
      assert ActAll(w.actions, SourceItems(w.source)) == SourceItems(w.source);
    }
  }

  lemma {:induction false} InnerItems<T>(w: Wrapper<T>)
    ensures SourceItems(Inner(w)) == Value(w)
  {
  }

  lemma {:induction false} ValueIs<T>(w: Wrapper<T>)
    ensures Value(w) == Finish(w, SourceItems(w.source))
  {
  }

  /** On a filtered wrapper, dropping and reversing wrap the wrapper itself. */
  lemma {:induction false} Rewrapped<T>(w: Wrapper<T>, op: Op<T>, xs: seq<T>)
    requires w.filtered && (op.Drop? || op.DropRight? || op.Reverse?)
    ensures ChainLazy(w, op) == Wrapper(
      if op.DropRight? then Inner(LazyReverse(w)) else Inner(w), !op.Drop?, op.Reverse?, [], None, [],
      [if op.Reverse? then Same else Do(op)])
    ensures SourceItems(ChainLazy(w, op).source) == if op.DropRight? then Value(LazyReverse(w)) else Value(w)
  {
    hide Value;
    assert [] + [Do(op)] == [Do(op)];
  }

  lemma {:induction false} SameFlag<T>(w: Wrapper<T>, m: Flags, op: Op<T>, items: seq<T>, xs: seq<T>)
    requires Sound(w, m, items, xs)
    ensures m.filtered == w.filtered && (!m.filtered ==> !m.counted)
    ensures !m.filtered || Stage(op) || op.Take? ==> ChainLazy(w, op).source == w.source
  {
  }

  lemma {:induction false} BuildSound<T>(xs: seq<T>, ops: seq<Op<T>>)
    requires Flagged(ops).Some?
    ensures Sound(Build(xs, ops), Flagged(ops).value, SourceItems(Build(xs, ops).source), ApplyAll(ops, xs))
  {
    hide Sound, ChainLazy, Apply, SourceItems;
    if ops == [] {
      WrapSound(xs);
    } else {
      BuildSound(xs, ops[..|ops| - 1]);
      ChainSound(Build(xs, ops[..|ops| - 1]), Flagged(ops[..|ops| - 1]).value, ops[|ops| - 1],
        ApplyAll(ops[..|ops| - 1], xs));
    }
  }

  lemma {:induction false} WrapSound<T>(xs: seq<T>)
    ensures Sound(Wrap(Plain(xs)), Flags(false, false, false, true, true), SourceItems(Plain(xs)), xs)
  {
    BareFused(Wrap(Plain(xs)), xs);
  }

  /** For every array, large or small, a safe chain has the value that its operations give one by one. */
  lemma {:induction false} LazyIsEager<T>(xs: seq<T>, ops: seq<Op<T>>)
    requires Flagged(ops).Some?
    ensures Value(Build(xs, ops)) == ApplyAll(ops, xs)
  {
    hide Sound, Build, ApplyAll, Flagged, Finish;
    BuildSound(xs, ops);
    var w := Build(xs, ops);
    SoundValue(w, Flagged(ops).value, SourceItems(w.source), ApplyAll(ops, xs));
  }

  // ---------------------------------------------------------------- the fused loop by itself

  /** Whether there has been some filtering, and a count after it. */
  datatype Phase = Phase(filtered: bool, counted: bool)

  /** Cuts, reversals and maps come before any filtering, and no filter comes after a count. */
  function Proceed<T>(m: Phase, op: Op<T>): Option<Phase> {
    match op
    case Map(_) => Some(m)
    case Filter(_) => if m.counted then None else Some(Phase(true, false))
    case TakeWhile(_) => Some(m.(filtered := true))
    case Take(_) => Some(m.(counted := m.filtered))
    case Reverse => if m.filtered then None else Some(m)
    case _ => if m.filtered then None else Some(m)
  }

  function Fusable<T>(ops: seq<Op<T>>): Option<Phase> {
    if ops == [] then Some(Phase(false, false))
    else
      match Fusable(ops[..|ops| - 1])
      case None => None
      case Some(m) => Proceed(m, ops[|ops| - 1])
  }

  ghost predicate FusedSound<T>(w: Wrapper<T>, m: Phase, xs: seq<T>) {
    && w.source.Plain? && m.filtered == w.filtered && m.counted == w.count.Some?
    && (!m.filtered ==> AllMaps(w.stages) && w.count.None?)
    && (w.actions == [] ==> w == Wrap(w.source))
    && Fused(w, w.source.items) == xs
  }

  lemma {:induction false} FusedStep<T>(w: Wrapper<T>, m: Phase, op: Op<T>, xs: seq<T>)
    requires FusedSound(w, m, xs) && Proceed(m, op).Some?
    ensures FusedSound(Chain(w, op), Proceed(m, op).value, Apply(op, xs))
  {
    hide Apply, Fused;
    var items := w.source.items;
    if op.Reverse? && w.actions == [] {
      BareFused(w, items);
      BareFused(Wrap(Plain(Reversed(items))), Reversed(items));
      ReverseIs(items);
    } else if Stage(op) {
      FusedStage(w, op, items);
      MoreMaps(w.stages, op);
    } else if m.filtered {
      FusedCount(w, op.n, items);
    } else {
      FusedCut(w, op, items);
    }
  }

  lemma {:induction false} MoreMaps<T>(stages: seq<Op<T>>, op: Op<T>)
    ensures op.Map? && AllMaps(stages) ==> AllMaps(stages + [op])
  {
  }

  lemma {:induction false} BuildFused<T>(xs: seq<T>, ops: seq<Op<T>>)
    requires Fusable(ops).Some?
    ensures FusedSound(Build(xs, ops), Fusable(ops).value, ApplyAll(ops, xs))
  {
    hide FusedSound, Chain, Apply;
    if ops == [] {
      FreshFused(xs);
    } else {
      BuildFused(xs, ops[..|ops| - 1]);
      FusedStep(Build(xs, ops[..|ops| - 1]), Fusable(ops[..|ops| - 1]).value, ops[|ops| - 1],
        ApplyAll(ops[..|ops| - 1], xs));
    }
  }

  lemma {:induction false} FreshFused<T>(xs: seq<T>)
    ensures FusedSound(Wrap(Plain(xs)), Phase(false, false), xs)
  {
    BareFused(Wrap(Plain(xs)), xs);
  }

  /** For every array, the fused loop over a single wrapper gives what its operations give one by one. */
  lemma {:induction false} FusedIsEager<T>(xs: seq<T>, ops: seq<Op<T>>)
    requires Fusable(ops).Some?
    ensures var w := Build(xs, ops); w.source.Plain? && Fused(w, w.source.items) == ApplyAll(ops, xs)
  {
    hide Build, ApplyAll, Fused;
    BuildFused(xs, ops);
  }

  /** So does the value of the wrapper, whenever it is computed by the loop. */
  lemma {:induction false} LoopIsEager<T>(xs: seq<T>, ops: seq<Op<T>>)
    requires Fusable(ops).Some? && !OneByOne(Build(xs, ops), SourceItems(Build(xs, ops).source))
    ensures Value(Build(xs, ops)) == ApplyAll(ops, xs)
  {
    hide Build, ApplyAll, Fused, OneByOne;
    FusedIsEager(xs, ops);
  }
}
