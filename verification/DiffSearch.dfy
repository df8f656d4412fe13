/** The greedy O(ND) search: `bestPath` maps a diagonal to the path object that reaches furthest on it. */
module DiffSearch {
  import opened EditScript
  import opened ScriptValues
  import opened ScriptLcs
  import Lcs

  // ---------------------------------------------------------------- path objects

  /** `components` with one more token of the given kind: the last component grows if it has that kind. */
  function Extend(components: seq<Component>, kind: Kind): seq<Component> {
    var n := |components|;
    if n > 0 && components[n - 1].kind == kind
    then components[n - 1 := Component(components[n - 1].count + 1, kind)]
    else components + [Component(1, kind)]
  }

  datatype Snap = Snap(newPos: int, components: seq<Component>)

  class Path {
    var newPos: int
    var components: seq<Component>

    constructor (newPos: int, components: seq<Component>)
      ensures View() == Snap(newPos, components)
    {
      this.newPos := newPos;
      this.components := components;
    }

    ghost function View(): Snap
      reads this
    {
      Snap(newPos, components)
    }

    method Clone() returns (path: Path)
      ensures fresh(path) && path.View() == View()
    {
      path := new Path(newPos, components);
    }

    method PushComponent(kind: Kind)
      modifies `components
      ensures components == Extend(old(components), kind)
    {
      var n := |components|;
      if n > 0 && components[n - 1].kind == kind {
        components := components[n - 1 := Component(components[n - 1].count + 1, kind)];
      } else {
        components := components + [Component(1, kind)];
      }
    }
  }

  /** `cs` is `init` with one more component at the end. */
  ghost predicate Grown(cs: seq<Component>, init: seq<Component>, last: Component) {
    |cs| == |init| + 1 && cs[..|cs| - 1] == init && cs[|cs| - 1] == last
  }

  /** `s` is what is left of `base` after sliding along `diagonal` over a maximal run of matching tokens. */
  ghost predicate Slid<T>(p: Problem<T>, diagonal: int, base: Snap, s: Snap) {
    var y := base.newPos + 1;
    var x := y - diagonal;
    && 0 <= x && 0 <= y && base.newPos <= s.newPos
    && KeptRun(p, x, y, s.newPos - base.newPos)
    && !p.Match(s.newPos + 1 - diagonal, s.newPos + 1)
    && (if s.newPos == base.newPos then s.components == base.components
        else Grown(s.components, base.components, Component(s.newPos - base.newPos, Kept)))
  }

  method ExtractCommon<T>(p: Problem<T>, basePath: Path, diagonalPath: int) returns (oldPos: int)
    requires 0 <= basePath.newPos + 1 <= |p.newTokens|
    requires 0 <= basePath.newPos + 1 - diagonalPath <= |p.oldTokens|
    modifies basePath
    ensures Slid(p, diagonalPath, old(basePath.View()), basePath.View())
    ensures oldPos == basePath.newPos - diagonalPath
  {
    var newPos := basePath.newPos;
    oldPos := newPos - diagonalPath;
    var commonCount := 0;
    while newPos + 1 < |p.newTokens| && oldPos + 1 < |p.oldTokens| &&
          p.equals(p.newTokens[newPos + 1], p.oldTokens[oldPos + 1])
      invariant newPos == old(basePath.newPos) + commonCount && oldPos == newPos - diagonalPath
      invariant commonCount >= 0
      invariant KeptRun(p, old(basePath.newPos) + 1 - diagonalPath, old(basePath.newPos) + 1, commonCount)
      decreases |p.newTokens| - newPos
    {
      newPos := newPos + 1;
      oldPos := oldPos + 1;
      commonCount := commonCount + 1;
    }
    if commonCount > 0 {
      basePath.components := basePath.components + [Component(commonCount, Kept)];
    }
    basePath.newPos := newPos;
  }

  // ---------------------------------------------------------------- what one stored path knows

  function Cols<T>(p: Problem<T>): nat { |p.oldTokens| }
  function Rows<T>(p: Problem<T>): nat { |p.newTokens| }

  function LastKind(cs: seq<Component>): Kind { if cs == [] then Kept else cs[|cs| - 1].kind }

  /** A walk with `d` edits that ends on `diagonal`, spelled by its components. */
  ghost predicate Walk<T>(p: Problem<T>, diagonal: int, d: nat, s: Snap) {
    && Traces(p, s.components)
    && NewSpan(s.components) == s.newPos + 1 <= Rows(p)
    && OldSpan(s.components) == s.newPos + 1 - diagonal <= Cols(p)
    && Edits(s.components) == d
    && Alternates(s.components)
  }

  /** Too many edits have been spent for this path ever to finish at the distance. */
  ghost predicate Doomed<T>(p: Problem<T>, diagonal: int, d: nat) {
    d + Rows(p) - Cols(p) - diagonal >= Dist(p, 0, 0) + 2
  }

  ghost predicate Tidy<T>(p: Problem<T>, diagonal: int, d: nat, s: Snap) {
    Never(s.components, Removed, Added) || Doomed(p, diagonal, d)
  }

  /** An entry of `bestPath` after round `d`: it rests at the end of a snake and is not a finished script. */
  ghost predicate Stored<T>(p: Problem<T>, diagonal: int, d: nat, s: Snap) {
    && Walk(p, diagonal, d, s)
    && Tidy(p, diagonal, d, s)
    && !p.Match(s.newPos + 1 - diagonal, s.newPos + 1)
    && !(s.newPos + 1 == Rows(p) && s.newPos + 1 - diagonal == Cols(p))
  }

  ghost function Remaining<T>(p: Problem<T>, diagonal: int, s: Snap): nat
    requires 0 <= s.newPos + 1 <= Rows(p) && 0 <= s.newPos + 1 - diagonal <= Cols(p)
  {
    Dist(p, s.newPos + 1 - diagonal, s.newPos + 1)
  }

  // ---------------------------------------------------------------- extending a path

  lemma {:induction false} ExtendFacts(cs: seq<Component>, kind: Kind)
    requires Alternates(cs)
    ensures OldSpan(Extend(cs, kind)) == OldSpan(cs) + if kind == Added then 0 else 1
    ensures NewSpan(Extend(cs, kind)) == NewSpan(cs) + if kind == Removed then 0 else 1
    ensures Edits(Extend(cs, kind)) == Edits(cs) + if kind == Kept then 0 else 1
    ensures Alternates(Extend(cs, kind))
    ensures LastKind(Extend(cs, kind)) == kind
    ensures Never(cs, Removed, Added) && !(LastKind(cs) == Removed && kind == Added)
      ==> Never(Extend(cs, kind), Removed, Added)
  {
    var n, e := |cs|, Extend(cs, kind);
    if n > 0 && cs[n - 1].kind == kind {
      assert e[..n - 1] == cs[..n - 1];
    } else {
      assert e[..n] == cs;
    }
  }

  lemma {:induction false} ExtendTraces<T>(p: Problem<T>, cs: seq<Component>, kind: Kind)
    requires Traces(p, cs) && Alternates(cs) && kind != Kept
    requires kind == Added ==> NewSpan(cs) < Rows(p)
    requires kind == Removed ==> OldSpan(cs) < Cols(p)
    ensures Traces(p, Extend(cs, kind))
  {
    var n, e := |cs|, Extend(cs, kind);
    ExtendFacts(cs, kind);
    if n > 0 && cs[n - 1].kind == kind {
      assert e[..n - 1] == cs[..n - 1];
    } else {
      assert e[..n] == cs;
    }
    LowerBound(p, cs);
  }

  lemma {:induction false} SlideWalks<T>(p: Problem<T>, diagonal: int, d: nat, base: Snap, s: Snap)
    requires Walk(p, diagonal, d, base) && (base.components == [] || LastKind(base.components) != Kept)
    requires Slid(p, diagonal, base, s)
    ensures Walk(p, diagonal, d, s)
  {
    if s.newPos > base.newPos {
      LowerBound(p, base.components);
    }
  }

  lemma {:induction false} SlideTidies<T>(p: Problem<T>, diagonal: int, d: nat, base: Snap, s: Snap)
    requires Tidy(p, diagonal, d, base) && Slid(p, diagonal, base, s)
    ensures Tidy(p, diagonal, d, s)
  {
    hide KeptRun, Dist;
  }

  lemma {:induction false} SlideLast<T>(p: Problem<T>, diagonal: int, base: Snap, s: Snap)
    requires Slid(p, diagonal, base, s)
    ensures LastKind(s.components) == Removed ==> s == base && LastKind(base.components) == Removed
  {
  }

  lemma {:induction false} SlideCloser<T>(p: Problem<T>, diagonal: int, base: Snap, s: Snap)
    requires Slid(p, diagonal, base, s)
    requires 0 <= s.newPos + 1 <= Rows(p) && 0 <= s.newPos + 1 - diagonal <= Cols(p)
    ensures Remaining(p, diagonal, s) <= Remaining(p, diagonal, base)
  {
    hide Dist, KeptRun;
    DistAlongDiagonal(p, base.newPos + 1 - diagonal, base.newPos + 1, s.newPos - base.newPos);
  }

  // ---------------------------------------------------------------- the frontier between rounds

  /** After round `d`: every entry is a stored path of that round's parity; an entry that ends in a removal is
      dominated two diagonals up; and some entry can still finish within the distance. */
  ghost predicate Frontier<T>(p: Problem<T>, d: nat, best: map<int, Snap>) {
    Layer(p, d, best) && AllDominated(p, best) && Hopeful(p, d, best)
  }

  ghost predicate Layer<T>(p: Problem<T>, d: nat, best: map<int, Snap>) {
    forall k :: k in best ==> 0 <= k + d && k <= d && (k + d) % 2 == 0 && Stored(p, k, d, best[k])
  }

  ghost predicate AllDominated<T>(p: Problem<T>, best: map<int, Snap>) {
    forall k {:trigger Dominated(p, best, k)} :: k in best ==> Dominated(p, best, k)
  }

  ghost predicate Hopeful<T>(p: Problem<T>, d: nat, best: map<int, Snap>) {
    exists w :: InReach(p, d, best, w)
  }

  /** The entry on diagonal `w` can still finish within the distance. */
  ghost predicate InReach<T>(p: Problem<T>, d: nat, best: map<int, Snap>, w: int) {
    && w in best
    && 0 <= best[w].newPos + 1 <= Rows(p) && 0 <= best[w].newPos + 1 - w <= Cols(p)
    && Remaining(p, w, best[w]) + d <= Dist(p, 0, 0)
  }

  ghost predicate Dominated<T>(p: Problem<T>, best: map<int, Snap>, k: int)
    requires k in best
  {
    (LastKind(best[k].components) == Removed && best[k].newPos + 1 < Rows(p))
    ==> (k + 2 in best && best[k + 2].newPos > best[k].newPos)
  }

  ghost predicate CanAdd<T>(p: Problem<T>, best: map<int, Snap>, k: int) {
    k - 1 in best && best[k - 1].newPos + 1 < Rows(p)
  }

  ghost predicate CanRemove<T>(p: Problem<T>, best: map<int, Snap>, k: int) {
    k + 1 in best && 0 <= best[k + 1].newPos - k < Cols(p)
  }

  ghost predicate Removes<T>(p: Problem<T>, best: map<int, Snap>, k: int)
    requires CanAdd(p, best, k) || CanRemove(p, best, k)
  {
    !CanAdd(p, best, k) || (CanRemove(p, best, k) && best[k - 1].newPos < best[k + 1].newPos)
  }

  /** The path that diagonal `k` continues, one edit later. */
  ghost function Base<T>(p: Problem<T>, best: map<int, Snap>, k: int): Snap
    requires CanAdd(p, best, k) || CanRemove(p, best, k)
  {
    if Removes(p, best, k) then Snap(best[k + 1].newPos, Extend(best[k + 1].components, Removed))
    else Snap(best[k - 1].newPos + 1, Extend(best[k - 1].components, Added))
  }

  /** Halfway through round `d`, before diagonal `k`: `best` holds the new entries below `k` and what is left of
      the entries `prev` of the round before. `t` is the diagonal on which the new witness will appear. */
  ghost predicate MidRound<T>(p: Problem<T>, d: nat, prev: map<int, Snap>, t: int, best: map<int, Snap>, k: int) {
    && d > 0 && Frontier(p, d - 1, prev)
    && 0 <= k + d && k <= d + 2 && (k + d) % 2 == 0
    && Keys(p, d, prev, best, k)
    && MidDominated(p, d, best, k)
    && Target(p, d, prev, t)
    && (k > t ==> InReach(p, d, best, t))
  }

  ghost predicate Keys<T>(p: Problem<T>, d: nat, prev: map<int, Snap>, best: map<int, Snap>, k: int) {
    && (forall j :: j in best ==> if (j + d) % 2 == 0 then 0 <= j + d && j < k && Stored(p, j, d, best[j])
                                  else j >= k - 1 && j in prev && best[j] == prev[j])
    && (forall j :: j in prev && j >= k - 1 ==> j in best)
  }

  ghost predicate MidDominated<T>(p: Problem<T>, d: nat, best: map<int, Snap>, k: int) {
    forall j {:trigger HalfDominated(p, best, j, k)} :: j in best && (j + d) % 2 == 0 ==> HalfDominated(p, best, j, k)
  }

  ghost predicate HalfDominated<T>(p: Problem<T>, best: map<int, Snap>, j: int, k: int)
    requires j in best
  {
    (LastKind(best[j].components) == Removed && best[j].newPos + 1 < Rows(p))
    ==> if j + 2 < k then j + 2 in best && best[j + 2].newPos > best[j].newPos
        else j + 1 in best && best[j + 1].newPos == best[j].newPos
  }

  /** Diagonal `t` can be reached by one edit from an entry of `prev` that brings the end one step closer. */
  ghost predicate Target<T>(p: Problem<T>, d: nat, prev: map<int, Snap>, t: int) {
    && 0 <= t + d && t <= d && (t + d) % 2 == 0
    && ((CanAdd(p, prev, t) && GoodAdd(p, d, prev[t - 1], t))
      || (CanRemove(p, prev, t) && GoodRemove(p, d, prev[t + 1], t)))
  }

  ghost predicate GoodAdd<T>(p: Problem<T>, d: nat, s: Snap, t: int) {
    && 0 <= s.newPos + 1 < Rows(p) && 0 <= s.newPos + 2 - t <= Cols(p)
    && Dist(p, s.newPos + 2 - t, s.newPos + 2) + d <= Dist(p, 0, 0)
  }

  ghost predicate GoodRemove<T>(p: Problem<T>, d: nat, s: Snap, t: int) {
    && 0 <= s.newPos + 1 <= Rows(p) && 0 <= s.newPos + 1 - t <= Cols(p)
    && Dist(p, s.newPos + 1 - t, s.newPos + 1) + d <= Dist(p, 0, 0)
  }

  // ---------------------------------------------------------------- one diagonal

  /** What the code computes for diagonal `k` is a walk with `d` edits, and it is tidy. */
  lemma {:induction false} BaseFacts<T>(p: Problem<T>, d: nat, prev: map<int, Snap>, k: int) returns (base: Snap)
    requires d > 0 && Frontier(p, d - 1, prev) && 0 <= k + d && k <= d && (k + d) % 2 == 0
    requires CanAdd(p, prev, k) || CanRemove(p, prev, k)
    ensures base == Base(p, prev, k)
    ensures Walk(p, k, d, base) && Tidy(p, k, d, base) && LastKind(base.components) != Kept
  {
    base := Base(p, prev, k);
    if Removes(p, prev, k) {
      var s := prev[k + 1];
      assert Stored(p, k + 1, d - 1, s);
      ExtendFacts(s.components, Removed);
      ExtendTraces(p, s.components, Removed);
    } else {
      var s := prev[k - 1];
      assert Stored(p, k - 1, d - 1, s);
      ExtendFacts(s.components, Added);
      ExtendTraces(p, s.components, Added);
      if LastKind(s.components) == Removed {
        RemoveThenAddIsDoomed(p, d, prev, k);
      }
    }
  }

  /** A removal is followed by an addition only where the dominating path has used up the old text, and then the
      path is too expensive to win. */
  lemma {:induction false} RemoveThenAddIsDoomed<T>(p: Problem<T>, d: nat, prev: map<int, Snap>, k: int)
    requires d > 0 && Frontier(p, d - 1, prev)
    requires CanAdd(p, prev, k) && !Removes(p, prev, k)
    requires LastKind(prev[k - 1].components) == Removed
    ensures Doomed(p, k, d)
  {
    hide Traces, Alternates, Tidy, Extend;
    assert Dominated(p, prev, k - 1);
    var s := prev[k + 1];
    assert Stored(p, k + 1, d - 1, s);
    assert s.newPos - k == Cols(p);
    LowerBound(p, s.components);
  }

  lemma {:induction false} FurtherIsCloser<T>(p: Problem<T>, t: int, y: int, s: Snap)
    requires 0 <= y <= s.newPos + 1 <= Rows(p) && 0 <= y - t && s.newPos + 1 - t <= Cols(p)
    ensures Remaining(p, t, s) <= Dist(p, y - t, y)
  {
    DistAlongDiagonal(p, y - t, y, s.newPos + 1 - y);
  }

  /** The base of the target diagonal is at least as far along it as the good neighbour of the old witness. */
  lemma {:induction false} BaseReachesTarget<T>(p: Problem<T>, d: nat, prev: map<int, Snap>, t: int, base: Snap)
    requires Target(p, d, prev, t) && (CanAdd(p, prev, t) || CanRemove(p, prev, t))
    requires base == Base(p, prev, t)
    requires 0 <= base.newPos + 1 <= Rows(p) && 0 <= base.newPos + 1 - t <= Cols(p)
    ensures Remaining(p, t, base) + d <= Dist(p, 0, 0)
  {
    hide Dist, Extend;
    if CanAdd(p, prev, t) && GoodAdd(p, d, prev[t - 1], t) {
      FurtherIsCloser(p, t, prev[t - 1].newPos + 2, base);
    } else {
      FurtherIsCloser(p, t, prev[t + 1].newPos + 1, base);
    }
  }

  lemma {:induction false} SameBranch<T>(p: Problem<T>, d: nat, prev: map<int, Snap>, t: int, best: map<int, Snap>,
                                         k: int)
    requires MidRound(p, d, prev, t, best, k) && k <= d
    ensures CanAdd(p, best, k) == CanAdd(p, prev, k)
    ensures CanRemove(p, best, k) == CanRemove(p, prev, k)
    ensures CanAdd(p, prev, k) || CanRemove(p, prev, k)
      ==> Removes(p, best, k) == Removes(p, prev, k) && Base(p, best, k) == Base(p, prev, k)
  {
    hide Stored, InReach, Target, Hopeful, AllDominated, MidDominated;
    assert (k - 1 + d) % 2 != 0 && (k + 1 + d) % 2 != 0;
  }

  lemma {:induction false} StepStores<T>(p: Problem<T>, d: nat, prev: map<int, Snap>, t: int, best: map<int, Snap>,
                                         k: int, s: Snap)
    requires MidRound(p, d, prev, t, best, k) && k <= d
    requires CanAdd(p, best, k) || CanRemove(p, best, k)
    requires Slid(p, k, Base(p, best, k), s)
    requires !(s.newPos + 1 == Rows(p) && s.newPos + 1 - k == Cols(p))
    ensures MidRound(p, d, prev, t, (best - {k - 1})[k := s], k + 2)
  {
    SameBranch(p, d, prev, t, best, k);
    var base := BaseFacts(p, d, prev, k);
    SlideWalks(p, k, d, base, s);
    SlideTidies(p, k, d, base, s);
    SlideCloser(p, k, base, s);
    StepKeys(p, d, prev, best, k, s);
    RemovalStaysBeside(p, d, prev, best, k, s);
    StepDominates(p, d, best, k, s);
    if t == k {
      BaseReachesTarget(p, d, prev, k, base);
    }
    StepReach(p, d, t, best, k, s);
  }

  lemma {:induction false} StepReach<T>(p: Problem<T>, d: nat, t: int, best: map<int, Snap>, k: int, s: Snap)
    requires (t + d) % 2 == 0 == (k + d) % 2
    requires k > t ==> InReach(p, d, best, t)
    requires Walk(p, k, d, s)
    requires k == t ==> Remaining(p, t, s) + d <= Dist(p, 0, 0)
    ensures k + 2 > t ==> InReach(p, d, (best - {k - 1})[k := s], t)
  {
    assert t != k - 1 && t != k + 1;
  }

  lemma {:induction false} StepKeys<T>(p: Problem<T>, d: nat, prev: map<int, Snap>, best: map<int, Snap>, k: int,
                                       s: Snap)
    requires Keys(p, d, prev, best, k) && (k + d) % 2 == 0 && 0 <= k + d
    requires Stored(p, k, d, s)
    ensures Keys(p, d, prev, (best - {k - 1})[k := s], k + 2)
  {
    hide Stored;
    var after := (best - {k - 1})[k := s];
    forall j | j in prev && j >= k + 1
      ensures j in after
    {
      assert j in best;
    }
  }

  /** A path that has just been extended by a removal still sits next to the entry it was cloned from. */
  lemma {:induction false} RemovalStaysBeside<T>(p: Problem<T>, d: nat, prev: map<int, Snap>, best: map<int, Snap>,
                                                 k: int, s: Snap)
    requires d > 0 && Frontier(p, d - 1, prev) && 0 <= k + d && k <= d && (k + d) % 2 == 0
    requires CanAdd(p, prev, k) || CanRemove(p, prev, k)
    requires CanAdd(p, best, k) || CanRemove(p, best, k)
    requires Removes(p, best, k) == Removes(p, prev, k) && Base(p, best, k) == Base(p, prev, k)
    requires Slid(p, k, Base(p, prev, k), s)
    ensures LastKind(s.components) == Removed ==> k + 1 in best && best[k + 1].newPos == s.newPos
  {
    var base := BaseFacts(p, d, prev, k);
    SlideLast(p, k, base, s);
    if LastKind(s.components) == Removed && !Removes(p, prev, k) {
      assert Stored(p, k - 1, d - 1, prev[k - 1]);
      ExtendFacts(prev[k - 1].components, Added);
      assert false;
    }
  }

  lemma {:induction false} StepDominates<T>(p: Problem<T>, d: nat, best: map<int, Snap>, k: int, s: Snap)
    requires MidDominated(p, d, best, k) && (k + d) % 2 == 0
    requires forall j :: j in best && (j + d) % 2 == 0 ==> j < k
    requires CanAdd(p, best, k) || CanRemove(p, best, k)
    requires s.newPos >= Base(p, best, k).newPos
    requires LastKind(s.components) == Removed ==> k + 1 in best && best[k + 1].newPos == s.newPos
    ensures MidDominated(p, d, (best - {k - 1})[k := s], k + 2)
  {
    var after := (best - {k - 1})[k := s];
    forall j | j in after && (j + d) % 2 == 0
      ensures HalfDominated(p, after, j, k + 2)
    {
      if j != k {
        assert HalfDominated(p, best, j, k);
        assert j + 2 < k - 1 || j + 2 == k;
      }
    }
  }

  lemma {:induction false} StepPrunes<T>(p: Problem<T>, d: nat, prev: map<int, Snap>, t: int, best: map<int, Snap>,
                                         k: int)
    requires MidRound(p, d, prev, t, best, k) && k <= d
    requires !CanAdd(p, best, k) && !CanRemove(p, best, k)
    ensures MidRound(p, d, prev, t, best - {k - 1} - {k}, k + 2)
  {
    hide Stored, Target, InReach, Frontier, HalfDominated, Dist;
    SameBranch(p, d, prev, t, best, k);
    PruneDominates(p, d, best, k);
    PruneKeys(p, d, prev, best, k);
    PruneReach(p, d, prev, t, best, k);
  }

  lemma {:induction false} PruneReach<T>(p: Problem<T>, d: nat, prev: map<int, Snap>, t: int, best: map<int, Snap>,
                                         k: int)
    requires Target(p, d, prev, t) && (k + d) % 2 == 0
    requires !CanAdd(p, prev, k) && !CanRemove(p, prev, k)
    requires k > t ==> InReach(p, d, best, t)
    ensures k + 2 > t ==> InReach(p, d, best - {k - 1} - {k}, t)
  {
    assert t != k && t != k - 1 && t != k + 1;
  }

  lemma {:induction false} PruneKeys<T>(p: Problem<T>, d: nat, prev: map<int, Snap>, best: map<int, Snap>, k: int)
    requires Keys(p, d, prev, best, k) && (k + d) % 2 == 0
    ensures Keys(p, d, prev, best - {k - 1} - {k}, k + 2)
  {
    hide Stored;
    var after := best - {k - 1} - {k};
    forall j | j in prev && j >= k + 1
      ensures j in after
    {
      assert j in best;
    }
  }

  lemma {:induction false} PruneDominates<T>(p: Problem<T>, d: nat, best: map<int, Snap>, k: int)
    requires MidDominated(p, d, best, k) && (k + d) % 2 == 0
    requires forall j :: j in best && (j + d) % 2 == 0 ==> j < k
    requires !CanAdd(p, best, k)
    ensures MidDominated(p, d, best - {k - 1} - {k}, k + 2)
  {
    var after := best - {k - 1} - {k};
    forall j | j in after && (j + d) % 2 == 0
      ensures HalfDominated(p, after, j, k + 2)
    {
      assert HalfDominated(p, best, j, k);
      assert j + 2 < k - 1 || j + 2 == k;
    }
  }

  // ---------------------------------------------------------------- rounds

  /** At the end of a snake some neighbour inside the grid is one edit closer. */
  lemma {:induction false} CloserNeighbour<T>(p: Problem<T>, x: nat, y: nat) returns (add: bool)
    requires x <= Cols(p) && y <= Rows(p)
    requires !p.Match(x, y) && !(x == Cols(p) && y == Rows(p))
    ensures if add then y < Rows(p) && Dist(p, x, y + 1) + 1 == Dist(p, x, y)
            else x < Cols(p) && Dist(p, x + 1, y) + 1 == Dist(p, x, y)
  {
    add := y < Rows(p) && (x == Cols(p) || Dist(p, x, y + 1) + 1 == Dist(p, x, y));
  }

  lemma {:induction false} RoundStarts<T>(p: Problem<T>, d: nat, prev: map<int, Snap>) returns (t: int)
    requires d > 0 && Frontier(p, d - 1, prev)
    ensures MidRound(p, d, prev, t, prev, 0 - d)
    ensures d <= Dist(p, 0, 0)
  {
    t := FindTarget(p, d, prev);
    hide Stored, Target;
    NoneYet(p, d, prev);
  }

  lemma {:induction false} NoneYet<T>(p: Problem<T>, d: nat, prev: map<int, Snap>)
    requires d > 0 && Layer(p, d - 1, prev)
    ensures Keys(p, d, prev, prev, 0 - d) && MidDominated(p, d, prev, 0 - d)
  {
    hide Stored;
    forall j | j in prev
      ensures (j + d) % 2 != 0 && j >= 0 - d - 1
    {
      assert (j + (d - 1)) % 2 == 0;
    }
  }

  lemma {:induction false} FindTarget<T>(p: Problem<T>, d: nat, prev: map<int, Snap>) returns (t: int)
    requires d > 0 && Frontier(p, d - 1, prev)
    ensures Target(p, d, prev, t) && d <= Dist(p, 0, 0)
  {
    hide AllDominated, Target, Walk, Tidy, Dist;
    var w :| InReach(p, d - 1, prev, w);
    var s := prev[w];
    assert Stored(p, w, d - 1, s);
    var add := CloserNeighbour(p, s.newPos + 1 - w, s.newPos + 1);
    t := if add then w + 1 else w - 1;
    assert (t + d) % 2 == 0;
    TargetBeside(p, d, prev, w, add);
  }

  lemma {:induction false} TargetBeside<T>(p: Problem<T>, d: nat, prev: map<int, Snap>, w: int, add: bool)
    requires d > 0 && InReach(p, d - 1, prev, w)
    requires w + d >= 1 && w <= d - 1 && (w + d) % 2 == 1
    requires var x, y := prev[w].newPos + 1 - w, prev[w].newPos + 1;
      if add then y < Rows(p) && Dist(p, x, y + 1) + 1 == Dist(p, x, y)
      else x < Cols(p) && Dist(p, x + 1, y) + 1 == Dist(p, x, y)
    ensures Target(p, d, prev, if add then w + 1 else w - 1)
    ensures d <= Dist(p, 0, 0)
  {
    var s := prev[w];
    if add {
      var t := w + 1;
      assert s.newPos + 2 - t == s.newPos + 1 - w;
      assert CanAdd(p, prev, t) && GoodAdd(p, d, prev[t - 1], t);
    } else {
      var t := w - 1;
      assert s.newPos + 1 - t == s.newPos + 1 - w + 1;
      assert CanRemove(p, prev, t) && GoodRemove(p, d, prev[t + 1], t);
    }
  }

  lemma {:induction false} RoundEnds<T>(p: Problem<T>, d: nat, prev: map<int, Snap>, t: int, best: map<int, Snap>)
    requires MidRound(p, d, prev, t, best, d + 2)
    ensures Frontier(p, d, best)
  {
    hide Stored;
    assert Layer(p, d, best);
    forall j | j in best
      ensures Dominated(p, best, j)
    {
      assert HalfDominated(p, best, j, d + 2);
    }
    assert InReach(p, d, best, t);
  }

  /** The path that reaches both ends has spent exactly the distance, so it is not one of the doomed ones. */
  lemma {:induction false} Accepted<T>(p: Problem<T>, d: nat, prev: map<int, Snap>, t: int, best: map<int, Snap>,
                                       k: int, s: Snap)
    requires MidRound(p, d, prev, t, best, k) && k <= d <= Dist(p, 0, 0)
    requires CanAdd(p, best, k) || CanRemove(p, best, k)
    requires Slid(p, k, Base(p, best, k), s)
    requires s.newPos + 1 >= Rows(p) && s.newPos + 1 - k >= Cols(p)
    ensures Complete(p, s.components) && Edits(s.components) == Dist(p, 0, 0)
    ensures Alternates(s.components) && Never(s.components, Removed, Added)
  {
    SameBranch(p, d, prev, t, best, k);
    var base := BaseFacts(p, d, prev, k);
    SlideWalks(p, k, d, base, s);
    SlideTidies(p, k, d, base, s);
    LowerBound(p, s.components);
  }

  /** The first snake, from the start of both texts, seeds the search unless it matches everything. */
  lemma {:induction false} Seeded<T>(p: Problem<T>, s: Snap)
    requires Slid(p, 0, Snap(-1, []), s)
    requires !(s.newPos + 1 == Rows(p) && s.newPos + 1 == Cols(p))
    ensures Frontier(p, 0, map[0 := s])
  {
    hide Slid, Walk, Dist, Tidy, Remaining;
    SeedWalks(p, s);
    assert Layer(p, 0, map[0 := s]);
    assert InReach(p, 0, map[0 := s], 0);
  }

  lemma {:induction false} SeedWalks<T>(p: Problem<T>, s: Snap)
    requires Slid(p, 0, Snap(-1, []), s)
    ensures Walk(p, 0, 0, s) && Tidy(p, 0, 0, s)
    ensures !p.Match(s.newPos + 1, s.newPos + 1) && LastKind(s.components) == Kept
    ensures 0 <= s.newPos + 1 <= Rows(p) && s.newPos + 1 <= Cols(p)
    ensures Remaining(p, 0, s) <= Dist(p, 0, 0)
  {
    SlideWalks(p, 0, 0, Snap(-1, []), s);
    SlideTidies(p, 0, 0, Snap(-1, []), s);
    SlideLast(p, 0, Snap(-1, []), s);
    SlideCloser(p, 0, Snap(-1, []), s);
  }

  lemma {:induction false} SearchIsBounded<T>(p: Problem<T>, d: nat, best: map<int, Snap>)
    requires Frontier(p, d, best)
    ensures d < Rows(p) + Cols(p)
  {
    var t := FindTarget(p, d + 1, best);
    DistAtLeastShift(p, 0, 0);
  }

  // ---------------------------------------------------------------- the search object

  /** What a caller of the search is promised. */
  ghost predicate ShortestScript<T>(p: Problem<T>, changes: seq<Change<T>>) {
    var cs := Components(changes);
    && Complete(p, cs)
    && Canonical(cs)
    && changes == Valued(p, cs)
    && (forall other :: Complete(p, other) ==> Edits(cs) <= Edits(other) && KeptTokens(other) <= KeptTokens(cs))
    && Edits(cs) + 2 * Lcs.Len(Matches(p), |p.oldTokens|, |p.newTokens|) == |p.oldTokens| + |p.newTokens|
  }

  lemma {:induction false} BuiltFromAccepted<T>(p: Problem<T>, cs: seq<Component>, changes: seq<Change<T>>)
    requires Complete(p, cs) && Edits(cs) == Dist(p, 0, 0)
    requires Alternates(cs) && Never(cs, Removed, Added)
    requires Traces(p, Reordered(cs)) && changes == Valued(p, Reordered(cs))
    ensures ShortestScript(p, changes)
  {
    var r := Reordered(cs);
    ReorderedSpans(cs);
    ReorderedCanonical(cs);
    ValuedComponents(p, r);
    forall other | Complete(p, other)
      ensures Edits(r) <= Edits(other) && KeptTokens(other) <= KeptTokens(r)
    {
      CheapestIsMinimal(p, r, other);
    }
    ShortestKeepsLcs(p, r);
  }

  ghost function View(best: map<int, Path>): map<int, Snap>
    reads best.Values
  {
    map k | k in best :: best[k].View()
  }

  /** No path object is shared by two diagonals. */
  ghost predicate Unshared(best: map<int, Path>) {
    forall i, j :: i in best && j in best && i != j ==> best[i] != best[j]
  }

  class Search<T> {
    const p: Problem<T>
    var bestPath: map<int, Path>
    var editLength: nat

    ghost predicate Valid()
      reads this, bestPath.Values
    {
      editLength > 0 && Unshared(bestPath) && Frontier(p, editLength - 1, View(bestPath))
    }

    constructor (p: Problem<T>, seed: Path)
      requires Frontier(p, 0, map[0 := seed.View()])
      ensures Valid() && this.p == p && editLength == 1 && bestPath.Values == {seed}
    {
      this.p := p;
      this.bestPath := map[0 := seed];
      this.editLength := 1;
      new;
      assert View(bestPath) == map[0 := seed.View()];
    }

    /** The branch that diagonal `k` continues. A path that is extended by an addition is updated in place after it
        has been taken out of `bestPath`; one extended by a removal is cloned, because its diagonal still needs it. */
    method TakeBranch(k: int) returns (basePath: Path?)
      requires Unshared(bestPath)
      modifies `bestPath, bestPath.Values
      ensures Unshared(bestPath)
      ensures bestPath.Values <= old(bestPath.Values)
      ensures forall path :: path in bestPath.Values && path != basePath ==> path.View() == old(path.View())
      ensures var before := old(View(bestPath));
        if !CanAdd(p, before, k) && !CanRemove(p, before, k)
        then basePath == null && View(bestPath) == before - {k - 1} - {k}
        else
          && basePath != null && basePath !in bestPath.Values
          && (basePath in old(bestPath.Values) || fresh(basePath))
          && basePath.View() == Base(p, before, k)
          && View(bestPath) == before - {k - 1}
    {
      hide Extend;
      var addPath: Path? := if k - 1 in bestPath then bestPath[k - 1] else null;
      var removePath: Path? := if k + 1 in bestPath then bestPath[k + 1] else null;
      var oldPos := (if removePath != null then removePath.newPos else 0) - k;
      if addPath != null {
        bestPath := bestPath - {k - 1};
      }
      var canAdd := addPath != null && addPath.newPos + 1 < |p.newTokens|;
      var canRemove := removePath != null && 0 <= oldPos < |p.oldTokens|;
      if !canAdd && !canRemove {
        bestPath := bestPath - {k};
        return null;
      }
      if !canAdd || (canRemove && addPath.newPos < removePath.newPos) {
        basePath := removePath.Clone();
        basePath.PushComponent(Removed);
      } else {
        basePath := addPath;
        basePath.newPos := basePath.newPos + 1;
        basePath.PushComponent(Added);
      }
      assert forall j :: j in bestPath ==> bestPath[j] != basePath && bestPath[j] in old(bestPath.Values);
    }

    /** Slides a new branch down its diagonal, and either finishes with it or files it. */
    method Follow(k: int, basePath: Path, ghost prev: map<int, Snap>, ghost t: int, ghost before: map<int, Snap>)
      returns (finished: bool, changes: seq<Change<T>>)
      requires k <= editLength <= Dist(p, 0, 0) && Unshared(bestPath) && basePath !in bestPath.Values
      requires MidRound(p, editLength, prev, t, before, k)
      requires View(bestPath) == before - {k - 1}
      requires CanAdd(p, before, k) || CanRemove(p, before, k)
      requires basePath.View() == Base(p, before, k)
      modifies `bestPath, basePath
      ensures finished ==> ShortestScript(p, changes)
      ensures !finished ==> MidRound(p, editLength, prev, t, View(bestPath), k + 2)
      ensures bestPath == old(bestPath) || bestPath == old(bestPath)[k := basePath]
    {
      hide MidRound, ShortestScript, Slid, Base, Valued, Reordered, Complete, Traces, CanAdd, CanRemove, Dist;
      hide Alternates, Never;
      BaseInGrid(p, editLength, prev, t, before, k);
      var oldPos := ExtractCommon(p, basePath, k);
      ghost var s := basePath.View();
      if basePath.newPos + 1 >= |p.newTokens| && oldPos + 1 >= |p.oldTokens| {
        Accepted(p, editLength, prev, t, before, k, s);
        changes := BuildValues(p, basePath.components);
        BuiltFromAccepted(p, s.components, changes);
        return true, changes;
      }
      StepStores(p, editLength, prev, t, before, k, s);
      bestPath := bestPath[k := basePath];
      assert View(bestPath) == (before - {k - 1})[k := s];
      return false, [];
    }

    /** One diagonal of a round. */
    method TryDiagonal(k: int, ghost prev: map<int, Snap>, ghost t: int)
      returns (finished: bool, changes: seq<Change<T>>)
      requires k <= editLength <= Dist(p, 0, 0) && Unshared(bestPath)
      requires MidRound(p, editLength, prev, t, View(bestPath), k)
      modifies `bestPath, bestPath.Values
      ensures finished ==> ShortestScript(p, changes)
      ensures !finished ==> Unshared(bestPath) && MidRound(p, editLength, prev, t, View(bestPath), k + 2)
      ensures forall path :: path in bestPath.Values ==> path in old(bestPath.Values) || fresh(path)
    {
      hide MidRound, ShortestScript, Base, Valued, Complete, Traces, CanAdd, CanRemove, Dist;
      ghost var before := View(bestPath);
      var basePath := TakeBranch(k);
      if basePath == null {
        StepPrunes(p, editLength, prev, t, before, k);
        return false, [];
      }
      finished, changes := Follow(k, basePath, prev, t, before);
    }

    /** One round: tries every diagonal of the current edit length. */
    method ExecEditLength() returns (finished: bool, changes: seq<Change<T>>)
      requires Valid()
      modifies this, bestPath.Values
      ensures finished ==> ShortestScript(p, changes)
      ensures !finished ==> Valid() && editLength == old(editLength) + 1
      ensures forall path :: path in bestPath.Values ==> path in old(bestPath.Values) || fresh(path)
    {
      hide MidRound, ShortestScript, Frontier;
      finished, changes := false, [];
      ghost var prev := View(bestPath);
      ghost var t := RoundStarts(p, editLength, prev);
      var diagonalPath: int := -1 * editLength;
      while diagonalPath <= editLength
        invariant editLength == old(editLength)
        invariant (diagonalPath + editLength) % 2 == 0 && diagonalPath <= editLength + 2
        invariant Unshared(bestPath)
        invariant forall path :: path in bestPath.Values ==> path in old(bestPath.Values) || fresh(path)
        invariant MidRound(p, editLength, prev, t, View(bestPath), diagonalPath)
      {
        finished, changes := TryDiagonal(diagonalPath, prev, t);
        if finished {
          return;
        }
        diagonalPath := diagonalPath + 2;
      }
      assert diagonalPath == editLength + 2;
      RoundEnds(p, editLength, prev, t, View(bestPath));
      editLength := editLength + 1;
    }
  }

  lemma {:induction false} BaseInGrid<T>(p: Problem<T>, d: nat, prev: map<int, Snap>, t: int, best: map<int, Snap>,
                                         k: int)
    requires MidRound(p, d, prev, t, best, k) && k <= d
    requires CanAdd(p, best, k) || CanRemove(p, best, k)
    ensures 0 <= Base(p, best, k).newPos + 1 <= |p.newTokens|
    ensures 0 <= Base(p, best, k).newPos + 1 - k <= |p.oldTokens|
  {
    SameBranch(p, d, prev, t, best, k);
    var _ := BaseFacts(p, d, prev, k);
  }

  /** The answer of the search: a single change for texts that match throughout, else a shortest script. */
  ghost predicate Answers<T>(p: Problem<T>, changes: seq<Change<T>>) {
    if |p.oldTokens| == |p.newTokens| && KeptRun(p, 0, 0, |p.newTokens|)
    then changes == [Change(Kept, |p.newTokens|, p.newTokens)]
    else ShortestScript(p, changes)
  }

  lemma {:induction false} AnswersSpell<T>(p: Problem<T>, changes: seq<Change<T>>)
    requires Answers(p, changes)
    ensures Spells(p, changes)
  {
    hide Spells;
    if |p.oldTokens| == |p.newTokens| && KeptRun(p, 0, 0, |p.newTokens|) {
      IdentitySpells(p);
    } else {
      CompleteSpells(p, Components(changes));
    }
  }

  /** The whole search, on token lists. */
  method Diff<T>(p: Problem<T>) returns (changes: seq<Change<T>>)
    ensures Answers(p, changes) && Spells(p, changes)
  {
    hide MidRound, ShortestScript, Frontier, Walk, Dist, Traces, Valued, Spells;
    var maxEditLength := |p.newTokens| + |p.oldTokens|;
    var seed := new Path(-1, []);
    var oldPos := ExtractCommon(p, seed, 0);
    if seed.newPos + 1 >= |p.newTokens| && oldPos + 1 >= |p.oldTokens| {
      changes := [Change(Kept, |p.newTokens|, p.newTokens)];
    } else {
      SeedStops(p, seed.newPos + 1);
      Seeded(p, seed.View());
      changes := Rounds(p, seed, maxEditLength);
    }
    AnswersSpell(p, changes);
  }

  lemma {:induction false} SeedStops<T>(p: Problem<T>, x: nat)
    requires x < |p.oldTokens| || x < |p.newTokens|
    requires !p.Match(x, x)
    ensures !(|p.oldTokens| == |p.newTokens| && KeptRun(p, 0, 0, |p.newTokens|))
  {
    if x < |p.oldTokens| == |p.newTokens| {
      if KeptRun(p, 0, 0, |p.newTokens|) {
        KeptRunAt(p, 0, 0, |p.newTokens|, x);
      }
    }
  }

  method Rounds<T>(p: Problem<T>, seed: Path, maxEditLength: nat) returns (changes: seq<Change<T>>)
    requires Frontier(p, 0, map[0 := seed.View()]) && maxEditLength == |p.newTokens| + |p.oldTokens|
    modifies seed
    ensures ShortestScript(p, changes)
  {
    hide MidRound, ShortestScript, Frontier;
    var search := new Search(p, seed);
    while search.editLength <= maxEditLength
      invariant fresh(search) && search.p == p
      invariant search.Valid()
      invariant forall path :: path in search.bestPath.Values ==> path == seed || fresh(path)
      decreases maxEditLength + 1 - search.editLength
    {
      var finished;
      finished, changes := search.ExecEditLength();
      if finished {
        return;
      }
    }
    SearchIsBounded(p, search.editLength - 1, View(search.bestPath));
    assert false;
  }
}
