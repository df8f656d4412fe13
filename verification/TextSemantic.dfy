/** Clean-up passes that trade small equalities for readable edits. */
module TextSemantic {
  import opened TextEdits
  import opened TextCleanup
  import opened TextRuns

  // ---------------------------------------------------------------- taking equalities apart

  function Equalities(t: seq<Edit>): nat {
    if t == [] then 0 else Equalities(t[..|t| - 1]) + if t[|t| - 1].op.Equal? then 1 else 0
  }

  lemma {:induction false} EqualitiesJoin(a: seq<Edit>, b: seq<Edit>)
    ensures Equalities(a + b) == Equalities(a) + Equalities(b)
    decreases |b|
  {
    var c := a + b;
    if b == [] {
      assert c == a;
    } else {
      var n := |b| - 1;
      EqualitiesJoin(a, b[..n]);
      assert c[..|c| - 1] == a + b[..n] && c[|c| - 1] == b[n];
    }
  }

  lemma {:induction false} EqualitiesOne(c: Edit)
    ensures Equalities([c]) == if c.op.Equal? then 1 else 0
  {
    var t := [c];
    assert t[..|t| - 1] == [];
    assert Equalities(t) == Equalities(t[..|t| - 1]) + if c.op.Equal? then 1 else 0;
  }

  lemma {:induction false} EqualitiesTwo(c: Edit, d: Edit)
    requires !c.op.Equal? && !d.op.Equal?
    ensures Equalities([c, d]) == 0
  {
    EqualitiesOne(c);
    EqualitiesOne(d);
    EqualitiesJoin([c], [d]);
    assert [c] + [d] == [c, d];
  }

  lemma {:induction false} UndoneKeeps(t: seq<Edit>, k: nat)
    requires k < |t| && t[k].op.Equal?
    ensures SameTexts(t, Undone(t, k)) && Equalities(Undone(t, k)) == Equalities(t) - 1 && |Undone(t, k)| == |t| + 1
    ensures Proper(t) ==> Proper(Undone(t, k))
  {
    hide Side, Equalities;
    var c, d := Edit(Delete, t[k].text), Edit(Insert, t[k].text);
    assert t[k..k + 1] == [t[k]];
    OneEdit(t[k]);
    TwoEdits(c, d);
    assert t[k].text + [] == t[k].text && [] + t[k].text == t[k].text;
    SpliceKeeps(t, k, k + 1, [c, d]);
    assert t == t[..k] + [t[k]] + t[k + 1..];
    EqualitiesJoin(t[..k] + [t[k]], t[k + 1..]);
    EqualitiesJoin(t[..k], [t[k]]);
    EqualitiesOne(t[k]);
    EqualitiesJoin(t[..k] + [c, d], t[k + 1..]);
    EqualitiesJoin(t[..k], [c, d]);
    EqualitiesTwo(c, d);
  }

  lemma {:induction false} SameAgain(t0: seq<Edit>, t: seq<Edit>, t': seq<Edit>)
    requires SameTexts(t0, t) && SameTexts(t, t')
    ensures SameTexts(t0, t')
  {
  }

  /** Undoes equalities that are no longer than the edits on either side of them, as long as there are any. */
  method DropSmallEqualities(t0: seq<Edit>) returns (t: seq<Edit>, changed: bool, ghost steps: nat)
    ensures SameTexts(t0, t) && (Proper(t0) ==> Proper(t))
    ensures UndoesSmall(t0, t, steps) && NoneSmall(t) && (changed <==> steps > 0)
    ensures (changed <==> exists k :: Small(t0, k)) && (!changed ==> t == t0)
  {
    hide Side, Equalities, Proper, Undone, SameTexts, Small, Scanning, UndoesSmall, Pending, Weighed, NoEquality;
    t, changed, steps := t0, false, 0;
    var at: map<int, int>, n, last: seq<Text> := map[], 0, [];
    var r := 0;
    var inserts1, deletes1, inserts2, deletes2 := 0, 0, 0, 0;
    ghost var base := 0;
    SameSelf(t0);
    StartScan(t0);
    while r < |t|
      invariant SameTexts(t0, t) && (Proper(t0) ==> Proper(t)) && UndoesSmall(t0, t, steps) && (changed <==> steps > 0)
      invariant 0 <= r <= |t| && Scanning(t, at, base, n, last, r) && Weighed(t, r, inserts2, deletes2)
      invariant last != [] ==> n - 1 in at && Pending(t, at[n - 1], r, inserts1, deletes1, inserts2, deletes2)
      decreases Equalities(t), |t| - r
    {
      WeighedOn(t, r, inserts2, deletes2);
      if t[r].op.Equal? {
        if last != [] {
          ScanOver(t, at, base, n, last, r, inserts1, deletes1, inserts2, deletes2);
        }
        ScanEquality(t, at, base, n, last, r);
        StartPending(t, r, inserts2, deletes2);
        at := at[n := r];
        n := n + 1;
        inserts1, deletes1, inserts2, deletes2 := inserts2, deletes2, 0, 0;
        last := [t[r].text];
      } else {
        ghost var i2, d2 := inserts2, deletes2;
        if t[r].op.Insert? {
          inserts2 := inserts2 + |t[r].text|;
        } else {
          deletes2 := deletes2 + |t[r].text|;
        }
        if last != [] && |last[0]| <= Max(inserts1, deletes1) && |last[0]| <= Max(inserts2, deletes2) {
          ScanFound(t, at, base, n, last, r, inserts1, deletes1, i2, d2, inserts2, deletes2);
          var k := at[n - 1];
          UndoneKeeps(t, k);
          SameAgain(t0, t, Undone(t, k));
          UndoneOnce(t0, t, steps, k);
          ScanUndone(t, at, base, n, last, r);
          t := Undone(t, k);
          n := n - 2;
          r := if n > 0 then at[n - 1] else -1;
          ScanRestarts(t, at, n, r + 1);
          base := if n > 0 then base else n;
          inserts1, deletes1, inserts2, deletes2 := 0, 0, 0, 0;
          last := [];
          changed, steps := true, steps + 1;
        } else {
          ScanEdit(t, at, base, n, last, r);
          if last != [] {
            StillPending(t, at, base, n, last, r, inserts1, deletes1, i2, d2, inserts2, deletes2);
          }
        }
      }
      r := r + 1;
    }
    if last != [] {
      ScanOver(t, at, base, n, last, r, inserts1, deletes1, inserts2, deletes2);
    }
    ScanEnds(t0, t, steps, at, base, n, last);
  }

  lemma {:induction false} StartScan(t: seq<Edit>)
    ensures Scanning(t, map[], 0, 0, [], 0) && Weighed(t, 0, 0, 0) && UndoesSmall(t, t, 0)
  {
  }

  lemma {:induction false} StartPending(t: seq<Edit>, r: nat, i2: int, d2: int)
    requires r < |t| && Weighed(t, r, i2, d2)
    ensures Pending(t, r, r + 1, i2, d2, 0, 0)
  {
  }

  lemma {:induction false} ScanOver(t: seq<Edit>, at: map<int, int>, base: int, n: int, last: seq<Text>, r: int,
                                    i1: int, d1: int, i2: int, d2: int)
    requires Scanning(t, at, base, n, last, r) && last != [] && (r == |t| || t[r].op.Equal?)
    requires Pending(t, at[n - 1], r, i1, d1, i2, d2) && Weighed(t, r, i2, d2)
    ensures !Small(t, at[n - 1])
  {
    hide Small, Pending, Weighed;
    PendingOver(t, at[n - 1], r, i1, d1, i2, d2);
  }

  lemma {:induction false} ScanFound(t: seq<Edit>, at: map<int, int>, base: int, n: int, last: seq<Text>, r: int,
                                     i1: int, d1: int, i2: int, d2: int, i2': int, d2': int)
    requires Scanning(t, at, base, n, last, r) && last != [] && r < |t| && !t[r].op.Equal?
    requires Pending(t, at[n - 1], r, i1, d1, i2, d2) && Weighed(t, r + 1, i2', d2')
    requires |last[0]| <= Max(i1, d1) && |last[0]| <= Max(i2', d2')
    ensures 0 <= at[n - 1] < r && t[at[n - 1]].op.Equal? && Small(t, at[n - 1])
  {
    hide Small, Weighed;
    PendingSmall(t, at[n - 1], r, i1, d1, i2', d2');
  }

  lemma {:induction false} StillPending(t: seq<Edit>, at: map<int, int>, base: int, n: int, last: seq<Text>, r: int,
                                        i1: int, d1: int, i2: int, d2: int, i2': int, d2': int)
    requires Scanning(t, at, base, n, last, r) && last != [] && r < |t|
    requires Pending(t, at[n - 1], r, i1, d1, i2, d2)
    requires !(|last[0]| <= Max(i1, d1) && |last[0]| <= Max(i2', d2'))
    ensures n - 1 in at && Pending(t, at[n - 1], r + 1, i1, d1, i2', d2')
  {
    hide Small;
  }

  lemma {:induction false} UndoneOnce(t0: seq<Edit>, t: seq<Edit>, steps: nat, k: nat)
    requires UndoesSmall(t0, t, steps) && Small(t, k)
    ensures UndoesSmall(t0, Undone(t, k), steps + 1)
  {
  }

  lemma {:induction false} ScanRestarts(t: seq<Edit>, at: map<int, int>, n: int, r: int)
    requires if n > 0 then exists base :: Scanning(t, at, base, n, [], r) && n - 1 in at && r == at[n - 1] + 1
             else r == 0
    ensures 0 <= r <= |t| && Weighed(t, r, 0, 0)
  {
    hide Small;
  }

  lemma {:induction false} ScanEnds(t0: seq<Edit>, t: seq<Edit>, steps: nat, at: map<int, int>, base: int, n: int,
                                    last: seq<Text>)
    requires UndoesSmall(t0, t, steps) && Scanning(t, at, base, n, last, |t|)
    requires last != [] ==> !Small(t, at[n - 1])
    ensures NoneSmall(t) && (steps > 0 <==> exists k :: Small(t0, k)) && (steps == 0 ==> t == t0)
  {
    forall k
      ensures !Small(t, k)
    {
      assert !(0 <= k < |t|) ==> !Small(t, k);
    }
    if steps > 0 {
      FirstSmall(t0, t, steps);
    }
  }

  lemma {:induction false} SameSelf(t: seq<Edit>)
    ensures SameTexts(t, t)
  {
  }

  /** Undoes short equalities between edits, as long as that saves edits at the given cost of one, and merges the
      result: `undone` is the list before that. */
  method CleanupEfficiency(t0: seq<Edit>, editCost: int)
    returns (t: seq<Edit>, ghost undone: seq<Edit>, ghost steps: nat)
    ensures SameTexts(t0, t) && (Proper(t0) ==> Proper(t))
    ensures UndoesCostly(t0, undone, editCost, steps) && NoneCostly(undone, editCost)
    ensures if exists k :: Costly(t0, k, editCost)
            then Merged(t) && Settled(t) && NoLarger(Chars(t), |t|, undone) && SameTexts(undone, t)
            else t == t0
  {
    hide Side, Equalities, Proper, Undone, SameTexts, Merged, Settled, Costly, Looking, Flagged, InMind, UndoesCostly;
    hide Chars;
    t, steps := t0, 0;
    var changed := false;
    var at: map<int, int>, n, last: Text := map[], 0, [];
    var r := 0;
    var preIns, preDel, postIns, postDel := false, false, false, false;
    ghost var base := 0;
    SameSelf(t0);
    StartLooking(t0, editCost);
    while r < |t|
      invariant SameTexts(t0, t) && (Proper(t0) ==> Proper(t))
      invariant UndoesCostly(t0, t, editCost, steps) && (changed <==> steps > 0)
      invariant 0 <= r <= |t| && Looking(t, at, base, n, last != [], r, editCost) && Flagged(t, r, postIns, postDel)
      invariant last != [] ==>
        && n - 1 in at && 0 <= at[n - 1] < |t| && t[at[n - 1]].text == last
        && InMind(t, at[n - 1], r, Sides(preIns, preDel, postIns, postDel), editCost)
        && !Saves(|last|, editCost, Sides(preIns, preDel, postIns, postDel))
      decreases Equalities(t), |t| - r
    {
      FlaggedOn(t, r, postIns, postDel);
      if t[r].op.Equal? {
        if last != [] {
          InMindOver(t, at[n - 1], r, Sides(preIns, preDel, postIns, postDel), editCost);
        }
        LookEquality(t, at, base, n, last != [], r, editCost);
        if |t[r].text| < editCost && (postIns || postDel) {
          if t[r].text == [] {
            NotCostly(t, r, postIns, postDel, editCost);
          } else {
            StartInMind(t, r, postIns, postDel, editCost);
          }
          at := at[n := r];
          n := n + 1;
          preIns, preDel := postIns, postDel;
          last := t[r].text;
        } else {
          NotCostly(t, r, postIns, postDel, editCost);
          n, base := 0, 0;
          last := [];
        }
        postIns, postDel := false, false;
      } else {
        if t[r].op.Delete? {
          postDel := true;
        } else {
          postIns := true;
        }
        ghost var s := Sides(preIns, preDel, postIns, postDel);
        if last != [] {
          InMindOn(t, at[n - 1], r, preIns, preDel, s, editCost);
        }
        if last != [] && ((preIns && preDel && postIns && postDel)
                          || (2 * |last| < editCost
                            && Count(preIns) + Count(preDel) + Count(postIns) + Count(postDel) == 3)) {
          var k := at[n - 1];
          InMindBehind(t, at, base, n, r, s, editCost);
          InMindCostly(t, k, r, s, editCost);
          UndoneKeeps(t, k);
          SameAgain(t0, t, Undone(t, k));
          UndoneOnceCostly(t0, t, editCost, steps, k);
          if preIns && preDel {
            GoOn(t, at, base, n, r, s, editCost);
          } else {
            LookUndone(t, at, base, n, r, editCost);
          }
          t := Undone(t, k);
          n := n - 1;
          last := [];
          if preIns && preDel {
            postIns, postDel := true, true;
            n, base := 0, 0;
          } else {
            n := n - 1;
            r := if n > 0 then at[n - 1] else -1;
            LookRestarts(t, at, n, r + 1, editCost);
            base := if n > 0 then base else n;
            postIns, postDel := false, false;
          }
          changed, steps := true, steps + 1;
        } else {
          LookEdit(t, at, base, n, last != [], r, editCost);
        }
      }
      r := r + 1;
    }
    if last != [] {
      InMindOver(t, at[n - 1], r, Sides(preIns, preDel, postIns, postDel), editCost);
    }
    LookEnds(t0, t, editCost, steps, at, base, n, last != []);
    undone := t;
    if changed {
      ghost var t1 := t;
      t := CleanupMerge(t);
      SameAgain(t0, t1, t);
    }
  }

  lemma {:induction false} StartLooking(t: seq<Edit>, editCost: int)
    ensures Looking(t, map[], 0, 0, false, 0, editCost) && Flagged(t, 0, false, false)
    ensures UndoesCostly(t, t, editCost, 0)
  {
  }

  lemma {:induction false} StartInMind(t: seq<Edit>, r: nat, ins: bool, del: bool, editCost: int)
    requires r < |t| && Flagged(t, r, ins, del) && t[r].op.Equal? && 0 < |t[r].text| < editCost && (ins || del)
    ensures InMind(t, r, r + 1, Sides(ins, del, false, false), editCost)
    ensures !Saves(|t[r].text|, editCost, Sides(ins, del, false, false))
  {
  }

  lemma {:induction false} InMindOn(t: seq<Edit>, k: int, r: int, preIns: bool, preDel: bool, s: Sides, editCost: int)
    requires 0 <= r < |t| && !t[r].op.Equal? && s.preIns == preIns && s.preDel == preDel
    requires exists post: Sides :: InMind(t, k, r, post, editCost) && post.preIns == preIns && post.preDel == preDel
    ensures InMind(t, k, r + 1, s, editCost)
  {
  }

  lemma {:induction false} InMindBehind(t: seq<Edit>, at: map<int, int>, base: int, n: int, r: int, s: Sides,
                                        editCost: int)
    requires Looking(t, at, base, n, true, r, editCost) && InMind(t, at[n - 1], r + 1, s, editCost)
    ensures n - 1 in at && 0 <= at[n - 1] < r && t[at[n - 1]].op.Equal?
  {
    hide Costly;
  }

  lemma {:induction false} UndoneOnceCostly(t0: seq<Edit>, t: seq<Edit>, editCost: int, steps: nat, k: nat)
    requires UndoesCostly(t0, t, editCost, steps) && Costly(t, k, editCost)
    ensures UndoesCostly(t0, Undone(t, k), editCost, steps + 1)
  {
  }

  lemma {:induction false} GoOn(t: seq<Edit>, at: map<int, int>, base: int, n: int, r: int, s: Sides, editCost: int)
    requires Looking(t, at, base, n, true, r, editCost) && InMind(t, at[n - 1], r + 1, s, editCost)
    requires s.preIns && s.preDel && r < |t| && !t[r].op.Equal?
    ensures var t' := Undone(t, at[n - 1]);
      Looking(t', at, 0, 0, false, r + 1, editCost) && Flagged(t', r + 1, true, true)
  {
    hide Costly;
    LookOn(t, at, base, n, r, editCost);
  }

  lemma {:induction false} LookRestarts(t: seq<Edit>, at: map<int, int>, n: int, r: int, editCost: int)
    requires if n > 0
             then exists base :: Looking(t, at, base, n, false, r, editCost) && n - 1 in at && r == at[n - 1] + 1
             else r == 0
    ensures 0 <= r <= |t| && Flagged(t, r, false, false)
  {
    hide Costly;
  }

  lemma {:induction false} LookEnds(t0: seq<Edit>, t: seq<Edit>, editCost: int, steps: nat, at: map<int, int>,
                                    base: int, n: int, inMind: bool)
    requires UndoesCostly(t0, t, editCost, steps) && Looking(t, at, base, n, inMind, |t|, editCost)
    requires inMind ==> !Costly(t, at[n - 1], editCost)
    ensures NoneCostly(t, editCost) && (steps > 0 <==> exists k :: Costly(t0, k, editCost)) && (steps == 0 ==> t == t0)
  {
    forall k
      ensures !Costly(t, k, editCost)
    {
      assert !(0 <= k < |t|) ==> !Costly(t, k, editCost);
    }
    if steps > 0 {
      FirstCostly(t0, t, editCost, steps);
    }
  }

  // ---------------------------------------------------------------- sliding edits sideways

  /** An edit between two equalities. */
  datatype Spot = Spot(left: Text, mid: Text, right: Text)

  predicate Slidable(s: Spot) { s.mid != [] && s.right != [] && s.mid[0] == s.right[0] }

  function SlideOn(s: Spot): Spot {
    if Slidable(s) then Spot(s.left + [s.mid[0]], s.mid[1..] + [s.right[0]], s.right[1..]) else s
  }

  function SlideBy(s: Spot, j: nat): Spot { if j == 0 then s else SlideOn(SlideBy(s, j - 1)) }

  /** As far left as one step takes it. */
  ghost predicate Leftmost(p: Text, x: Text, n: Text, s: Spot) {
    exists k :: IsCommonSuffix(p, x, k) && (forall j: nat :: IsCommonSuffix(p, x, j) ==> j <= k)
      && s == Spot(p[..|p| - k], x[|x| - k..] + x[..|x| - k], x[|x| - k..] + n)
  }

  function Total(score: (Text, Text) -> int, s: Spot): int { score(s.left, s.mid) + score(s.mid, s.right) }

  /** `best` is the last of the best spots among the first `m` slides from `s`. */
  ghost predicate LastBest(score: (Text, Text) -> int, s: Spot, m: nat, best: nat) {
    && best <= m
    && (forall i: nat :: i < m ==> Slidable(SlideBy(s, i)))
    && (forall i: nat :: i <= m ==>
          Total(score, SlideBy(s, i)) <= Total(score, SlideBy(s, best))
          && (best < i ==> Total(score, SlideBy(s, i)) < Total(score, SlideBy(s, best))))
  }

  /** The edit has been slid, from as far left as possible, to the last of the spots that `score` likes best. */
  ghost predicate BestSlide(score: (Text, Text) -> int, p: Text, x: Text, n: Text, r: Spot) {
    exists s, m: nat, best: nat :: Leftmost(p, x, n, s) && LastBest(score, s, m, best) && !Slidable(SlideBy(s, m))
      && r == SlideBy(s, best)
  }

  /** The spot still spells what the edit between the two equalities did; an empty edit stays where it is. */
  ghost predicate Spells(p: Text, x: Text, n: Text, s: Spot) {
    && s.left + s.mid + s.right == p + x + n && s.left + s.right == p + n && |s.mid| == |x|
    && (x == [] ==> s.left == p)
  }

  lemma {:induction false} SlideSpells(p: Text, x: Text, n: Text, s: Spot)
    requires Spells(p, x, n, s) && Slidable(s)
    ensures Spells(p, x, n, SlideOn(s)) && |SlideOn(s).right| < |s.right|
  {
    OneSlide(s.left, s.mid, s.right);
  }

  /** Slides an edit `x` between the equalities `p` and `n` to where `score` likes it best, the last such place. */
  method Slide(p: Text, x: Text, n: Text, score: (Text, Text) -> int) returns (best: Spot)
    requires x != [] || n != []
    ensures best.left + best.mid + best.right == p + x + n && best.left + best.right == p + n && |best.mid| == |x|
    ensures BestSlide(score, p, x, n, best)
    ensures x == [] ==> best.left == p
  {
    var k := CommonSuffix(p, x);
    var common := x[|x| - k..];
    var here := Spot(p[..|p| - k], common + x[..|x| - k], common + n);
    ghost var start := here;
    Suffixes(p, x, n, k);
    assert Leftmost(p, x, n, start);
    hide Spells, Slidable, SlideBy, LastBest, Leftmost, IsCommonSuffix, SlideOn;
    best := here;
    var bestScore := score(here.left, here.mid) + score(here.mid, here.right);
    ghost var m: nat, b: nat := 0, 0;
    StartsBest(score, start);
    while Slidable(here)
      invariant here == SlideBy(start, m) && best == SlideBy(start, b) && bestScore == Total(score, best)
      invariant LastBest(score, start, m, b)
      invariant Spells(p, x, n, here) && Spells(p, x, n, best)
      decreases |here.right|
    {
      SlideSpells(p, x, n, here);
      BestGrows(score, start, m, b);
      SlideMore(start, m);
      here := SlideOn(here);
      var current := score(here.left, here.mid) + score(here.mid, here.right);
      m := m + 1;
      if current >= bestScore {
        bestScore, best, b := current, here, m;
      }
    }
    Spelt(p, x, n, best);
  }

  lemma {:induction false} StartsBest(score: (Text, Text) -> int, s: Spot)
    ensures SlideBy(s, 0) == s && LastBest(score, s, 0, 0)
  {
  }

  lemma {:induction false} SlideMore(s: Spot, m: nat)
    ensures SlideBy(s, m + 1) == SlideOn(SlideBy(s, m))
  {
  }

  lemma {:induction false} Spelt(p: Text, x: Text, n: Text, s: Spot)
    requires Spells(p, x, n, s)
    ensures s.left + s.mid + s.right == p + x + n && s.left + s.right == p + n && |s.mid| == |x|
    ensures x == [] ==> s.left == p
  {
  }

  lemma {:induction false} BestGrows(score: (Text, Text) -> int, s: Spot, m: nat, b: nat)
    requires LastBest(score, s, m, b) && Slidable(SlideBy(s, m))
    ensures LastBest(score, s, m + 1,
                     if Total(score, SlideBy(s, m + 1)) >= Total(score, SlideBy(s, b)) then m + 1 else b)
  {
    hide SlideBy, Slidable, Total;
  }

  lemma {:induction false} Suffixes(p: Text, x: Text, n: Text, k: nat)
    requires IsCommonSuffix(p, x, k)
    ensures var common := x[|x| - k..]; Spells(p, x, n, Spot(p[..|p| - k], common + x[..|x| - k], common + n))
  {
    var common := x[|x| - k..];
    assert p == p[..|p| - k] + common && x == x[..|x| - k] + common;
  }

  lemma {:induction false} OneSlide(left: Text, mid: Text, right: Text)
    requires mid != [] && right != [] && mid[0] == right[0]
    ensures (left + [mid[0]]) + (mid[1..] + [right[0]]) + right[1..] == left + mid + right
    ensures (left + [mid[0]]) + right[1..] == left + right
  {
    assert mid == [mid[0]] + mid[1..] && right == [right[0]] + right[1..];
  }

  function EqualityOrNone(p: Text): seq<Edit> { if p == [] then [] else [Edit(Equal, p)] }

  lemma {:induction false} EqualityOrNoneTexts(p: Text)
    ensures Old(EqualityOrNone(p)) == p && New(EqualityOrNone(p)) == p && Proper(EqualityOrNone(p))
    ensures |EqualityOrNone(p)| == if p == [] then 0 else 1
  {
    if p != [] {
      OneEdit(Edit(Equal, p));
    }
  }

  lemma {:induction false} Slid(op: Op, p: Text, x: Text, n: Text, p': Text, x': Text, n': Text)
    requires p' + x' + n' == p + x + n && p' + n' == p + n
    ensures SameTexts([Edit(Equal, p), Edit(op, x), Edit(Equal, n)],
      EqualityOrNone(p') + [Edit(op, x')] + EqualityOrNone(n'))
  {
    hide Side, EqualityOrNone;
    ThreeEdits(Edit(Equal, p), Edit(op, x), Edit(Equal, n));
    EqualityOrNoneTexts(p');
    EqualityOrNoneTexts(n');
    OneEdit(Edit(op, x'));
    TextsJoin(EqualityOrNone(p') + [Edit(op, x')], EqualityOrNone(n'));
    TextsJoin(EqualityOrNone(p'), [Edit(op, x')]);
    assert p + [] + n == p + n && p' + [] + n' == p' + n';
  }

  lemma {:induction false} SlidInPlace(t: seq<Edit>, k: nat, p': Text, x': Text, n': Text)
    requires Single(t, k)
    requires p' + x' + n' == t[k - 1].text + t[k].text + t[k + 1].text && p' + n' == t[k - 1].text + t[k + 1].text
    requires |x'| == |t[k].text|
    ensures var mid := EqualityOrNone(p') + [Edit(t[k].op, x')] + EqualityOrNone(n');
      var t' := Splice(t, k - 1, k + 2, mid);
      SameTexts(t, t') && (Proper(t) ==> Proper(t'))
  {
    hide Side, EqualityOrNone;
    var mid := EqualityOrNone(p') + [Edit(t[k].op, x')] + EqualityOrNone(n');
    assert t[k - 1..k + 2] == [t[k - 1], t[k], t[k + 1]];
    Slid(t[k].op, t[k - 1].text, t[k].text, t[k + 1].text, p', x', n');
    SpliceKeeps(t, k - 1, k + 2, mid);
    if Proper(t) {
      EqualityOrNoneTexts(p');
      EqualityOrNoneTexts(n');
      ProperJoin(EqualityOrNone(p'), [Edit(t[k].op, x')]);
      ProperJoin(EqualityOrNone(p') + [Edit(t[k].op, x')], EqualityOrNone(n'));
      ProperSplice(t, k - 1, k + 2, mid);
    }
  }

  lemma {:induction false} ProperSplice(t: seq<Edit>, i: nat, j: nat, mid: seq<Edit>)
    requires i <= j <= |t| && Proper(t) && Proper(mid)
    ensures Proper(Splice(t, i, j, mid))
  {
  }

  /** An empty entry, not the first one, is followed by an empty equality. */
  predicate EmptyPair(t: seq<Edit>, k: nat) { 0 < k < |t| - 1 && t[k].text == [] && t[k + 1] == Edit(Equal, []) }

  /** Where the slides stand: the entries behind `k` are the last ones of `t0`, and so is the one at `k`, unless it is
      not empty. */
  ghost predicate Untouched(t0: seq<Edit>, t: seq<Edit>, k: nat) {
    && |t| <= |t0|
    && (forall j :: k < j < |t| ==> t[j] == t0[j + |t0| - |t|])
    && (k < |t| ==> t[k].text != [] || t[k] == t0[k + |t0| - |t|])
  }

  /** No entry before `k` is between two equalities, so none has been slid. */
  predicate NoneSingle(t: seq<Edit>, k: nat) { forall j: nat :: j < k ==> !Single(t, j) }

  /** The code hangs at `m`, the first entry between two equalities. */
  predicate HangsAt(t: seq<Edit>, m: nat) { EmptyPair(t, m) && Single(t, m) && NoneSingle(t, m) }

  ghost predicate OnTheWay(t0: seq<Edit>, t: seq<Edit>, k: nat) {
    forall m: nat :: HangsAt(t0, m) ==> t == t0 && k <= m
  }

  lemma {:induction false} UntouchedOn(t0: seq<Edit>, t: seq<Edit>, k: nat, mid: seq<Edit>)
    requires Untouched(t0, t, k) && 0 < k < |t| - 1 && 1 <= |mid| <= 3 && mid[|mid| - 1].text != []
    ensures var t' := Splice(t, k - 1, k + 2, mid); Untouched(t0, t', k + |mid| - 2)
  {
    var t', k' := Splice(t, k - 1, k + 2, mid), k + |mid| - 2;
    assert t'[k'] == mid[|mid| - 1];
    forall j | k' < j < |t'|
      ensures t'[j] == t0[j + |t0| - |t'|]
    {
      assert t'[j] == t[j + |t| - |t'|];
    }
  }

  /** One step of the pass: an edit between two equalities goes to its best place, and an equality that becomes empty is
      dropped; anything else is passed over. */
  ghost predicate SlideStep(score: (Text, Text) -> int, t: seq<Edit>, k: nat, t': seq<Edit>, k': nat) {
    && 0 < k < |t| - 1
    && if Single(t, k) then
         && (t[k].text != [] || t[k + 1].text != [])
         && exists s: Spot :: BestSlide(score, t[k - 1].text, t[k].text, t[k + 1].text, s) && Placed(t, k, s, t', k')
       else t' == t && k' == k + 1
  }

  ghost predicate Placed(t: seq<Edit>, k: nat, s: Spot, t': seq<Edit>, k': nat)
    requires 0 < k < |t| - 1
  {
    if s.left == t[k - 1].text then t' == t && k' == k + 1
    else
      var mid := EqualityOrNone(s.left) + [Edit(t[k].op, s.mid)] + EqualityOrNone(s.right);
      t' == Splice(t, k - 1, k + 2, mid) && k' == k + |mid| - 2
  }

  /** After `n` steps from the start of `t0`, the pass is at entry `k` of `t`. */
  ghost predicate Slides(score: (Text, Text) -> int, t0: seq<Edit>, t: seq<Edit>, k: nat, n: nat)
    decreases n
  {
    if n == 0 then t == t0 && k == 1
    else exists t1, k1: nat :: Slides(score, t0, t1, k1, n - 1) && SlideStep(score, t1, k1, t, k)
  }

  /** The pass has come to the end of `t`, or hangs there at an empty edit in front of an empty equality. */
  ghost predicate SlidesAll(score: (Text, Text) -> int, t0: seq<Edit>, t: seq<Edit>, hangs: bool) {
    exists k: nat, n: nat :: (
      && Slides(score, t0, t, k, n)
      && if hangs then Single(t, k) && t[k].text == t[k + 1].text == [] else k + 1 >= |t|)
  }

  lemma {:induction false} SlidesOn(score: (Text, Text) -> int, t0: seq<Edit>, t: seq<Edit>, k: nat, n: nat,
                                    t': seq<Edit>, k': nat)
    requires Slides(score, t0, t, k, n) && SlideStep(score, t, k, t', k')
    ensures Slides(score, t0, t', k', n + 1)
  {
    hide SlideStep;
  }

  lemma {:induction false} PassedOver(score: (Text, Text) -> int, t: seq<Edit>, k: nat)
    requires 0 < k < |t| - 1 && !Single(t, k)
    ensures SlideStep(score, t, k, t, k + 1)
  {
  }

  /** Slides the edit at `k`, and drops the equalities around it that become empty. */
  method SlideAt(ghost t0: seq<Edit>, t: seq<Edit>, k: nat, score: (Text, Text) -> int) returns (t': seq<Edit>, k': nat)
    requires Single(t, k) && (t[k].text != [] || t[k + 1].text != []) && Untouched(t0, t, k) && OnTheWay(t0, t, k)
    ensures SameTexts(t, t') && (Proper(t) ==> Proper(t')) && |t'| - k' == |t| - k - 1 && 1 <= k'
    ensures Untouched(t0, t', k') && OnTheWay(t0, t', k') && SlideStep(score, t, k, t', k')
  {
    hide Side, Proper, EqualityOrNone, SameTexts, HangsAt, BestSlide;
    NotTheFirst(t0, t, k);
    SameSelf(t);
    var p, x, n := t[k - 1].text, t[k].text, t[k + 1].text;
    var slid := Slide(p, x, n, score);
    var p', x', n' := slid.left, slid.mid, slid.right;
    assert BestSlide(score, p, x, n, slid);
    if p' == p {
      assert Placed(t, k, slid, t, k + 1);
      return t, k + 1;
    }
    var mid := EqualityOrNone(p') + [Edit(t[k].op, x')] + EqualityOrNone(n');
    SlidInPlace(t, k, p', x', n');
    EqualityOrNoneTexts(p');
    EqualityOrNoneTexts(n');
    assert |p'| + |n'| == |p' + n'| == |p + n| == |p| + |n|;
    LastOfMid(p', Edit(t[k].op, x'), n');
    UntouchedOn(t0, t, k, mid);
    assert Placed(t, k, slid, Splice(t, k - 1, k + 2, mid), k + |mid| - 2);
    return Splice(t, k - 1, k + 2, mid), k + |mid| - 2;
  }

  /** Slides every single edit between two equalities. The code never returns if it meets an empty edit before an empty
      equality; then `hangs` is true. */
  method CleanupSemanticLossless(t0: seq<Edit>, score: (Text, Text) -> int) returns (t: seq<Edit>, hangs: bool)
    ensures SameTexts(t0, t)
    ensures Proper(t0) ==> !hangs && Proper(t)
    ensures hangs ==> exists k :: EmptyPair(t0, k)
    ensures (exists k :: HangsAt(t0, k)) ==> hangs
    ensures SlidesAll(score, t0, t, hangs)
  {
    hide Side, Proper, SameTexts, Untouched, OnTheWay, HangsAt, Slides, SlideStep;
    t, hangs := t0, false;
    ghost var n := 0;
    StartSlides(score, t0);
    SameSelf(t0);
    Begins(t0);
    var k := 1;
    while k < |t| - 1
      invariant 1 <= k && SameTexts(t0, t) && (Proper(t0) ==> Proper(t)) && Untouched(t0, t, k) && OnTheWay(t0, t, k)
      invariant Slides(score, t0, t, k, n)
      decreases |t| - k
    {
      ghost var was, at := t, k;
      if t[k - 1].op.Equal? && t[k + 1].op.Equal? {
        if t[k].text == [] && t[k + 1].text == [] {
          NotProper(t, k + 1);
          MetEmptyPair(t0, t, k);
          return t, true;
        }
        t, k := SlideAt(t0, t, k, score);
        SameAgain(t0, was, t);
      } else {
        Passed(t0, t, k);
        PassedOver(score, t, k);
        k := k + 1;
      }
      SlidesOn(score, t0, was, at, n, t, k);
      n := n + 1;
    }
    NeverHung(t0, t, k);
  }

  lemma {:induction false} StartSlides(score: (Text, Text) -> int, t: seq<Edit>)
    ensures Slides(score, t, t, 1, 0)
  {
  }

  lemma {:induction false} Begins(t: seq<Edit>)
    ensures Untouched(t, t, 1) && OnTheWay(t, t, 1)
  {
  }

  lemma {:induction false} Passed(t0: seq<Edit>, t: seq<Edit>, k: nat)
    requires Untouched(t0, t, k) && OnTheWay(t0, t, k) && 0 < k < |t| - 1 && !Single(t, k)
    ensures Untouched(t0, t, k + 1) && OnTheWay(t0, t, k + 1)
  {
  }

  lemma {:induction false} NeverHung(t0: seq<Edit>, t: seq<Edit>, k: nat)
    requires OnTheWay(t0, t, k) && k >= |t| - 1
    ensures forall m: nat :: !HangsAt(t0, m)
  {
  }

  lemma {:induction false} MetEmptyPair(t0: seq<Edit>, t: seq<Edit>, k: nat)
    requires Untouched(t0, t, k) && 0 < k < |t| - 1 && t[k].text == [] && t[k + 1] == Edit(Equal, [])
    ensures exists j :: EmptyPair(t0, j)
  {
    assert EmptyPair(t0, k + |t0| - |t|);
  }

  /** The first entry between two equalities is not one that makes the code hang. */
  lemma {:induction false} NotTheFirst(t0: seq<Edit>, t: seq<Edit>, k: nat)
    requires Single(t, k) && (t[k].text != [] || t[k + 1].text != []) && OnTheWay(t0, t, k)
    ensures forall m: nat :: !HangsAt(t0, m)
  {
  }

  lemma {:induction false} LastOfMid(p: Text, e: Edit, n: Text)
    requires e.text != []
    ensures var mid := EqualityOrNone(p) + [e] + EqualityOrNone(n); mid[|mid| - 1].text != []
  {
  }

  /** One input on which the code never returns: an empty insertion before an empty equality. */
  method EmptyEditHangs(a: Text, score: (Text, Text) -> int) returns (t: seq<Edit>, hangs: bool)
    ensures hangs
  {
    var t0 := [Edit(Equal, a), Edit(Insert, []), Edit(Equal, [])];
    assert HangsAt(t0, 1);
    t, hangs := CleanupSemanticLossless(t0, score);
  }

  lemma {:induction false} NotProper(t: seq<Edit>, k: nat)
    requires k < |t| && t[k] == Edit(Equal, [])
    ensures !Proper(t)
  {
  }

  // ---------------------------------------------------------------- overlaps

  lemma {:induction false} OverlapParts(g: Text, c: Text, k: nat)
    requires IsOverlap(g, c, k)
    ensures g == g[..|g| - k] + c[..k] && c == c[..k] + c[k..]
  {
  }

  lemma {:induction false} OverlapTexts(g: Text, c: Text, k: nat)
    requires IsOverlap(g, c, k)
    ensures SameTexts([Edit(Delete, g), Edit(Insert, c)],
      [Edit(Delete, g[..|g| - k]), Edit(Equal, c[..k]), Edit(Insert, c[k..])])
  {
    hide Side, IsOverlap;
    KnownOverlap(g, c, k);
    var a, o, b := g[..|g| - k], c[..k], c[k..];
    OverlapParts(g, c, k);
    TwoEdits(Edit(Delete, g), Edit(Insert, c));
    ThreeEdits(Edit(Delete, a), Edit(Equal, o), Edit(Insert, b));
    assert g + [] == g && [] + c == c;
    assert a + o + [] == a + o && [] + o + b == o + b;
  }

  ghost predicate SmallOverlap(d: Edit, i: Edit) {
    d.op.Delete? && i.op.Insert? ==>
      forall k: nat :: IsOverlap(d.text, i.text, k) ==> 2 * k < |d.text| && 2 * k < |i.text|
  }

  /** Up to `r`, deletions and the insertions after them overlap by less than half of either. */
  ghost predicate SmallOverlaps(t: seq<Edit>, r: int) {
    forall j :: 0 < j < r && j < |t| ==> SmallOverlap(t[j - 1], t[j])
  }

  ghost predicate LongestOverlap(g: Text, c: Text, k: nat) {
    IsOverlap(g, c, k) && forall j: nat :: IsOverlap(g, c, j) ==> j <= k
  }

  predicate Pair(t: seq<Edit>, i: int) { 0 <= i < |t| - 1 && t[i].op.Delete? && t[i + 1].op.Insert? }

  /** A deletion and the insertion after it, or what becomes of them if they overlap by half of either. */
  ghost predicate TakenApart(d: Edit, i: Edit, r: seq<Edit>) {
    exists k: nat :: LongestOverlap(d.text, i.text, k) &&
      r == if 2 * k >= |d.text| || 2 * k >= |i.text|
           then [Edit(Delete, d.text[..|d.text| - k]), Edit(Equal, i.text[..k]), Edit(Insert, i.text[k..])]
           else [d, i]
  }

  /** The first `i` entries of `t` have become `out`: pairs have been taken apart, other entries are as they were. */
  ghost predicate TakesApart(t: seq<Edit>, i: nat, out: seq<Edit>)
    requires i <= |t|
    decreases i
  {
    if i == 0 then out == []
    else
      || (!Pair(t, i - 1) && out != [] && out[|out| - 1] == t[i - 1] && TakesApart(t, i - 1, out[..|out| - 1]))
      || (i > 1 && Pair(t, i - 2)
          && exists m: nat :: m <= |out| && TakenApart(t[i - 2], t[i - 1], out[m..]) && TakesApart(t, i - 2, out[..m]))
  }

  ghost predicate TakesAllApart(t0: seq<Edit>, t: seq<Edit>) {
    exists i: nat, out: seq<Edit> :: |t0| - 1 <= i <= |t0| && TakesApart(t0, i, out) && t == out + t0[i..]
  }

  lemma {:induction false} ApartOne(t: seq<Edit>, i: nat, out: seq<Edit>)
    requires i < |t| && !Pair(t, i) && TakesApart(t, i, out)
    ensures TakesApart(t, i + 1, out + [t[i]])
  {
    assert (out + [t[i]])[..|out|] == out;
  }

  lemma {:induction false} ApartPair(t: seq<Edit>, i: nat, out: seq<Edit>, r: seq<Edit>)
    requires Pair(t, i) && TakesApart(t, i, out) && TakenApart(t[i], t[i + 1], r)
    ensures TakesApart(t, i + 2, out + r)
  {
    assert (out + r)[..|out|] == out && (out + r)[|out|..] == r;
  }

  /** Makes an equality of the overlap between a deletion and the insertion after it, if it is at least half of
      either. */
  method ExtractOverlaps(t0: seq<Edit>) returns (t: seq<Edit>)
    ensures SameTexts(t0, t) && SmallOverlaps(t, |t|)
    ensures TakesAllApart(t0, t)
  {
    hide SameTexts, TakesApart, SmallOverlaps;
    t := t0;
    SameSelf(t0);
    var r := 1;
    ghost var i: nat, out: seq<Edit> := 0, [];
    NothingApart(t0);
    while r < |t|
      invariant r >= 1 && SameTexts(t0, t) && SmallOverlaps(t, r) && Halfway(t0, t, i, out, r)
      decreases |t| - r
    {
      if t[r - 1].op.Delete? && t[r].op.Insert? {
        t, r, out := ApartAt(t0, t, i, out, r);
        i := i + 2;
      } else {
        PassedApart(t0, t, i, out, r);
        out := out + [t0[i]];
        i := i + 1;
        r := r + 1;
      }
    }
    AllApart(t0, t, i, out, r);
  }

  /** Up to `r`, the list consists of what has become of the first `i` entries, and goes on with the others. */
  ghost predicate Halfway(t0: seq<Edit>, t: seq<Edit>, i: nat, out: seq<Edit>, r: int) {
    i <= |t0| && |out| == r - 1 && TakesApart(t0, i, out) && t == out + t0[i..]
  }

  lemma {:induction false} AllApart(t0: seq<Edit>, t: seq<Edit>, i: nat, out: seq<Edit>, r: int)
    requires Halfway(t0, t, i, out, r) && r >= |t| && SmallOverlaps(t, r)
    ensures |t0| - 1 <= i <= |t0| && TakesApart(t0, i, out) && t == out + t0[i..] && SmallOverlaps(t, |t|)
  {
    hide TakesApart, IsOverlap;
  }

  lemma {:induction false} PassedApart(t0: seq<Edit>, t: seq<Edit>, i: nat, out: seq<Edit>, r: nat)
    requires Halfway(t0, t, i, out, r) && 0 < r < |t| && SmallOverlaps(t, r)
    requires !(t[r - 1].op.Delete? && t[r].op.Insert?)
    ensures i < |t0| && Halfway(t0, t, i + 1, out + [t0[i]], r + 1) && SmallOverlaps(t, r + 1)
  {
    hide TakesApart, IsOverlap;
    assert t[r - 1] == t0[i] && t[r] == t0[i + 1];
    ApartOne(t0, i, out);
    assert t0[i..] == [t0[i]] + t0[i + 1..];
  }

  /** Takes apart the pair before `r`. */
  method ApartAt(ghost t0: seq<Edit>, t: seq<Edit>, ghost i: nat, ghost out: seq<Edit>, r: nat)
    returns (t': seq<Edit>, r': nat, ghost out': seq<Edit>)
    requires 0 < r < |t| && t[r - 1].op.Delete? && t[r].op.Insert?
    requires SameTexts(t0, t) && SmallOverlaps(t, r) && Halfway(t0, t, i, out, r)
    ensures SameTexts(t0, t') && SmallOverlaps(t', r') && Halfway(t0, t', i + 2, out', r')
    ensures r' > 0 && |t'| - r' < |t| - r
  {
    hide Side, SameTexts, IsOverlap, LongestOverlap, SmallOverlaps, Splice, Halfway;
    var g, c := t[r - 1].text, t[r].text;
    var k := CommonOverlap(g, c);
    IsLongest(g, c, k);
    PairIs(t0, t, i, out, r);
    if 2 * k >= |g| || 2 * k >= |c| {
      KnownOverlap(g, c, k);
      var mid := [Edit(Delete, g[..|g| - k]), Edit(Equal, c[..k]), Edit(Insert, c[k..])];
      PairSplit(t0, t, i, out, r, k, mid);
      SplitTexts(t0, t, r, k, mid);
      return Splice(t, r - 1, r + 1, mid), r + 3, out + mid;
    }
    SmallPair(t, r);
    PairKept(t0, t, i, out, r, k);
    return t, r + 2, out + [t0[i], t0[i + 1]];
  }

  lemma {:induction false} SplitTexts(t0: seq<Edit>, t: seq<Edit>, r: nat, k: nat, mid: seq<Edit>)
    requires 0 < r < |t| && t[r - 1].op.Delete? && t[r].op.Insert?
    requires IsOverlap(t[r - 1].text, t[r].text, k) && SameTexts(t0, t) && SmallOverlaps(t, r)
    requires k <= |t[r - 1].text| && k <= |t[r].text|
    requires var g, c := t[r - 1].text, t[r].text;
      mid == [Edit(Delete, g[..|g| - k]), Edit(Equal, c[..k]), Edit(Insert, c[k..])]
    ensures SameTexts(t0, Splice(t, r - 1, r + 1, mid)) && SmallOverlaps(Splice(t, r - 1, r + 1, mid), r + 3)
    ensures |Splice(t, r - 1, r + 1, mid)| == |t| + 1
  {
    hide Side, SameTexts, IsOverlap, SmallOverlaps;
    var g, c := t[r - 1].text, t[r].text;
    OverlapTexts(g, c, k);
    assert t[r - 1..r + 1] == [Edit(Delete, g), Edit(Insert, c)];
    SpliceKeeps(t, r - 1, r + 1, mid);
    SameAgain(t0, t, Splice(t, r - 1, r + 1, mid));
    Extracted(t, r, mid);
  }

  lemma {:induction false} PairSplit(t0: seq<Edit>, t: seq<Edit>, i: nat, out: seq<Edit>, r: nat, k: nat,
                                     mid: seq<Edit>)
    requires Halfway(t0, t, i, out, r) && 0 < r < |t| && Pair(t0, i)
    requires LongestOverlap(t0[i].text, t0[i + 1].text, k) && k <= |t0[i].text| && k <= |t0[i + 1].text|
    requires 2 * k >= |t0[i].text| || 2 * k >= |t0[i + 1].text|
    requires var g, c := t0[i].text, t0[i + 1].text;
      mid == [Edit(Delete, g[..|g| - k]), Edit(Equal, c[..k]), Edit(Insert, c[k..])]
    ensures i + 2 <= |t0| && Halfway(t0, Splice(t, r - 1, r + 1, mid), i + 2, out + mid, r + 3)
  {
    hide TakesApart, LongestOverlap, Splice;
    assert TakenApart(t0[i], t0[i + 1], mid);
    hide TakenApart;
    ApartPair(t0, i, out, mid);
    SplicedApart(t0, t, i, out, mid);
  }

  lemma {:induction false} PairKept(t0: seq<Edit>, t: seq<Edit>, i: nat, out: seq<Edit>, r: nat, k: nat)
    requires Halfway(t0, t, i, out, r) && 0 < r < |t| && Pair(t0, i)
    requires LongestOverlap(t0[i].text, t0[i + 1].text, k)
    requires 2 * k < |t0[i].text| && 2 * k < |t0[i + 1].text|
    ensures i + 2 <= |t0| && Halfway(t0, t, i + 2, out + [t0[i], t0[i + 1]], r + 2)
  {
    hide TakesApart, LongestOverlap;
    assert TakenApart(t0[i], t0[i + 1], [t0[i], t0[i + 1]]);
    hide TakenApart;
    ApartPair(t0, i, out, [t0[i], t0[i + 1]]);
    assert t0[i..] == [t0[i], t0[i + 1]] + t0[i + 2..];
    assert out + t0[i..] == (out + [t0[i], t0[i + 1]]) + t0[i + 2..];
  }

  lemma {:induction false} PairIs(t0: seq<Edit>, t: seq<Edit>, i: nat, out: seq<Edit>, r: nat)
    requires Halfway(t0, t, i, out, r) && 0 < r < |t| && t[r - 1].op.Delete? && t[r].op.Insert?
    ensures Pair(t0, i) && t[r - 1] == t0[i] && t[r] == t0[i + 1]
  {
    hide TakesApart;
  }

  lemma {:induction false} NothingApart(t: seq<Edit>)
    ensures Halfway(t, t, 0, [], 1) && SmallOverlaps(t, 1)
  {
  }

  lemma {:induction false} IsLongest(g: Text, c: Text, k: nat)
    requires IsOverlap(g, c, k) && forall j: nat :: IsOverlap(g, c, j) ==> j <= k
    ensures LongestOverlap(g, c, k)
  {
  }

  lemma {:induction false} SplicedApart(t0: seq<Edit>, t: seq<Edit>, i: nat, out: seq<Edit>, mid: seq<Edit>)
    requires i + 2 <= |t0| && t == out + t0[i..]
    ensures Splice(t, |out|, |out| + 2, mid) == (out + mid) + t0[i + 2..]
  {
    assert t[..|out|] == out && t[|out| + 2..] == t0[i + 2..];
  }

  lemma {:induction false} KnownOverlap(g: Text, c: Text, k: nat)
    requires IsOverlap(g, c, k)
    ensures k <= |g| && k <= |c|
  {
  }

  lemma {:induction false} SmallPair(t: seq<Edit>, r: nat)
    requires 0 < r < |t| && SmallOverlaps(t, r) && t[r].op.Insert?
    requires forall k: nat :: IsOverlap(t[r - 1].text, t[r].text, k) ==> 2 * k < |t[r - 1].text| && 2 * k < |t[r].text|
    ensures SmallOverlaps(t, r + 2)
  {
    hide IsOverlap;
  }

  lemma {:induction false} Extracted(t: seq<Edit>, r: nat, mid: seq<Edit>)
    requires 0 < r < |t| && SmallOverlaps(t, r) && |mid| == 3 && mid[0].op == t[r - 1].op == Delete && mid[1].op.Equal?
      && mid[2].op.Insert?
    ensures SmallOverlaps(Splice(t, r - 1, r + 1, mid), r + 3)
  {
    hide IsOverlap;
    var t' := Splice(t, r - 1, r + 1, mid);
    assert t'[r - 1] == mid[0] && t'[r] == mid[1] && t'[r + 1] == mid[2];
    assert forall j :: 0 <= j < r - 1 ==> t'[j] == t[j];
  }

  /** Undoes small equalities, slides edits, and takes out overlaps. */
  method CleanupSemantic(t0: seq<Edit>, score: (Text, Text) -> int)
    returns (t: seq<Edit>, hangs: bool, ghost undone: seq<Edit>, ghost merged: seq<Edit>, ghost slid: seq<Edit>,
      ghost steps: nat)
    ensures SameTexts(t0, t)
    ensures Proper(t0) ==> !hangs
    ensures !hangs ==> SmallOverlaps(t, |t|)
    ensures UndoesSmall(t0, undone, steps) && NoneSmall(undone)
    ensures if exists k :: Small(t0, k)
            then Merged(merged) && Settled(merged) && NoLarger(Chars(merged), |merged|, undone)
              && SameTexts(undone, merged)
            else merged == t0
    ensures SlidesAll(score, merged, slid, hangs) && if hangs then t == slid else TakesAllApart(slid, t)
  {
    hide Side, Proper, SameTexts, Merged, Settled, SmallOverlaps, Small, UndoesSmall, Chars, SlidesAll, TakesAllApart;
    var changed: bool;
    t, changed, steps := DropSmallEqualities(t0);
    undone := t;
    if changed {
      ghost var t1 := t;
      t := CleanupMerge(t);
      SameAgain(t0, t1, t);
    }
    merged := t;
    ghost var t2 := t;
    t, hangs := CleanupSemanticLossless(t, score);
    slid := t;
    SameAgain(t0, t2, t);
    if hangs {
      return;
    }
    t := ExtractOverlaps(t);
    SameAgain(t0, slid, t);
  }
}
