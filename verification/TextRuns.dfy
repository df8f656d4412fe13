/** The runs of edits on either side of an equality, and which equalities are too small for them. */
module TextRuns {
  import opened TextEdits
  import opened TextCleanup

  /** Characters inserted or deleted, or the number of such edits. */
  datatype Measure = Length(op: Op) | Number(op: Op)

  function Weigh(e: Edit, w: Measure): nat {
    if e.op != w.op then 0 else if w.Length? then |e.text| else 1
  }

  /** What the edits between the place `k` and the equality before it weigh. */
  function Before(t: seq<Edit>, k: nat, w: Measure): nat
    requires k <= |t|
  {
    if k == 0 || t[k - 1].op.Equal? then 0 else Before(t, k - 1, w) + Weigh(t[k - 1], w)
  }

  /** What the edits between entry `k` and the equality after it weigh. */
  function After(t: seq<Edit>, k: nat, w: Measure): nat
    requires k < |t|
    decreases |t| - k
  {
    if k + 1 == |t| || t[k + 1].op.Equal? then 0 else Weigh(t[k + 1], w) + After(t, k + 1, w)
  }

  function Max(a: int, b: int): int { if a < b then b else a }

  ghost predicate NoEquality(t: seq<Edit>, i: int, j: int) {
    0 <= i && j <= |t| && forall k :: i <= k < j ==> !t[k].op.Equal?
  }

  /** Behind an equality, what has been weighed up to a place and what is still to come make up the whole. */
  lemma {:induction false} WeighedSoFar(t: seq<Edit>, k: nat, m: nat, w: Measure)
    requires k < m <= |t| && t[k].op.Equal? && NoEquality(t, k + 1, m)
    ensures After(t, k, w) == Before(t, m, w) + if m < |t| && !t[m].op.Equal? then After(t, m - 1, w) else 0
  {
    if m > k + 1 {
      WeighedSoFar(t, k, m - 1, w);
    }
  }

  lemma {:induction false} SameBefore(t: seq<Edit>, t': seq<Edit>, k: nat, w: Measure)
    requires k <= |t| && k <= |t'| && t[..k] == t'[..k]
    ensures Before(t, k, w) == Before(t', k, w)
  {
    if k > 0 {
      assert t[k - 1] == t[..k][k - 1] == t'[..k][k - 1] == t'[k - 1];
      assert t[..k - 1] == t[..k][..k - 1] == t'[..k - 1];
      SameBefore(t, t', k - 1, w);
    }
  }

  lemma {:induction false} SameAfter(t: seq<Edit>, t': seq<Edit>, k: nat, m: nat, w: Measure)
    requires k < m < |t| && m < |t'| && t[..m + 1] == t'[..m + 1] && t[m].op.Equal?
    ensures After(t, k, w) == After(t', k, w)
    decreases m - k
  {
    assert t[k + 1] == t[..m + 1][k + 1] == t'[k + 1];
    if k + 1 < m {
      SameAfter(t, t', k + 1, m, w);
    }
  }

  // ---------------------------------------------------------------- small equalities

  /** An edit follows the equality, and it is no longer than the larger of the insertions and the deletions before it,
      and of those after it. */
  ghost predicate Small(t: seq<Edit>, k: int) {
    && 0 <= k < |t| - 1 && t[k].op.Equal? && !t[k + 1].op.Equal?
    && |t[k].text| <= Max(Before(t, k, Length(Insert)), Before(t, k, Length(Delete)))
    && |t[k].text| <= Max(After(t, k, Length(Insert)), After(t, k, Length(Delete)))
  }

  ghost predicate NoneSmall(t: seq<Edit>) { forall k :: !Small(t, k) }

  lemma {:induction false} SmallSame(t: seq<Edit>, t': seq<Edit>, k: nat, m: nat)
    requires k < m < |t| && m < |t'| && t[..m + 1] == t'[..m + 1] && t[m].op.Equal?
    ensures Small(t, k) <==> Small(t', k)
  {
    assert t[k] == t[..m + 1][k] == t'[k] && t[k + 1] == t[..m + 1][k + 1] == t'[k + 1];
    assert t[..k] == t[..m + 1][..k] == t'[..k];
    SameBefore(t, t', k, Length(Insert));
    SameBefore(t, t', k, Length(Delete));
    SameAfter(t, t', k, m, Length(Insert));
    SameAfter(t, t', k, m, Length(Delete));
  }

  /** The list with the equality at `k` deleted and inserted again. */
  function Undone(t: seq<Edit>, k: nat): seq<Edit>
    requires k < |t|
  {
    Splice(t, k, k + 1, [Edit(Delete, t[k].text), Edit(Insert, t[k].text)])
  }

  lemma {:induction false} UndonePrefix(t: seq<Edit>, k: nat, m: nat)
    requires m < k < |t|
    ensures |Undone(t, k)| == |t| + 1 && Undone(t, k)[..m + 1] == t[..m + 1]
  {
  }

  /** `t` comes from `t0` by undoing `n` small equalities, one after the other. */
  ghost predicate UndoesSmall(t0: seq<Edit>, t: seq<Edit>, n: nat)
    decreases n
  {
    if n == 0 then t == t0
    else exists t1, k: nat :: UndoesSmall(t0, t1, n - 1) && Small(t1, k) && t == Undone(t1, k)
  }

  lemma {:induction false} FirstSmall(t0: seq<Edit>, t: seq<Edit>, n: nat)
    requires UndoesSmall(t0, t, n) && n > 0
    ensures exists k :: Small(t0, k)
    decreases n
  {
    var t1, k: nat :| UndoesSmall(t0, t1, n - 1) && Small(t1, k) && t == Undone(t1, k);
    if n > 1 {
      FirstSmall(t0, t1, n - 1);
    }
  }

  // ---------------------------------------------------------------- scanning for them

  /** The scan is at `r`: `at` lists equalities before it, in order, of which those from `base` to `n` count; the last
      of them is the last equality before `r`. None before it is small, nor it itself, so far. */
  ghost predicate Scanning(t: seq<Edit>, at: map<int, int>, base: int, n: int, last: seq<Text>, r: int) {
    && base <= n && base <= 0 && 0 <= r <= |t| && |last| <= 1
    && (forall j :: base <= j < n ==> j in at && 0 <= at[j] < r && t[at[j]].op.Equal?)
    && (forall i, j :: base <= i < j < n ==> at[i] < at[j])
    && NoEquality(t, if n > base then at[n - 1] + 1 else 0, r)
    && (last != [] ==> n > base && t[at[n - 1]].text == last[0])
    && (forall j :: 0 <= j < r && (last != [] ==> j != at[n - 1]) ==> !Small(t, j))
  }

  /** With an equality in mind, its edits before it have been weighed, and it has not turned out to be small. */
  ghost predicate Pending(t: seq<Edit>, k: int, r: int, i1: int, d1: int, i2: int, d2: int) {
    && 0 <= k < r <= |t|
    && i1 == Before(t, k, Length(Insert)) && d1 == Before(t, k, Length(Delete))
    && (r == k + 1 || !(|t[k].text| <= Max(i1, d1) && |t[k].text| <= Max(i2, d2)))
  }

  ghost predicate Weighed(t: seq<Edit>, r: int, i2: int, d2: int) {
    0 <= r <= |t| && i2 == Before(t, r, Length(Insert)) && d2 == Before(t, r, Length(Delete))
  }

  /** At the next equality, or at the end, the one in mind is known not to be small. */
  lemma {:induction false} PendingOver(t: seq<Edit>, k: int, r: int, i1: int, d1: int, i2: int, d2: int)
    requires Pending(t, k, r, i1, d1, i2, d2) && Weighed(t, r, i2, d2) && t[k].op.Equal? && NoEquality(t, k + 1, r)
    requires r == |t| || t[r].op.Equal?
    ensures !Small(t, k)
  {
    WeighedSoFar(t, k, r, Length(Insert));
    WeighedSoFar(t, k, r, Length(Delete));
  }

  /** If it turns out to be small on the way, it is small. */
  lemma {:induction false} PendingSmall(t: seq<Edit>, k: int, r: int, i1: int, d1: int, i2: int, d2: int)
    requires 0 <= k < r < |t| && t[k].op.Equal? && NoEquality(t, k + 1, r + 1)
    requires i1 == Before(t, k, Length(Insert)) && d1 == Before(t, k, Length(Delete)) && Weighed(t, r + 1, i2, d2)
    requires |t[k].text| <= Max(i1, d1) && |t[k].text| <= Max(i2, d2)
    ensures Small(t, k)
  {
    WeighedSoFar(t, k, r + 1, Length(Insert));
    WeighedSoFar(t, k, r + 1, Length(Delete));
  }

  lemma {:induction false} WeighedOn(t: seq<Edit>, r: int, i2: int, d2: int)
    requires Weighed(t, r, i2, d2) && r < |t|
    ensures if t[r].op.Equal? then Weighed(t, r + 1, 0, 0)
            else if t[r].op.Insert? then Weighed(t, r + 1, i2 + |t[r].text|, d2)
            else Weighed(t, r + 1, i2, d2 + |t[r].text|)
  {
  }

  lemma {:induction false} ScanEquality(t: seq<Edit>, at: map<int, int>, base: int, n: int, last: seq<Text>, r: int)
    requires Scanning(t, at, base, n, last, r) && r < |t| && t[r].op.Equal? && (last != [] ==> !Small(t, at[n - 1]))
    ensures Scanning(t, at[n := r], base, n + 1, [t[r].text], r + 1)
  {
    hide Small;
  }

  lemma {:induction false} ScanEdit(t: seq<Edit>, at: map<int, int>, base: int, n: int, last: seq<Text>, r: int)
    requires Scanning(t, at, base, n, last, r) && r < |t| && !t[r].op.Equal?
    ensures Scanning(t, at, base, n, last, r + 1)
  {
    assert !Small(t, r);
    hide Small;
  }

  /** After the last equality has been undone, the scan goes on behind the one before the one before it. */
  lemma {:induction false} ScanUndone(t: seq<Edit>, at: map<int, int>, base: int, n: int, last: seq<Text>, r: int)
    requires Scanning(t, at, base, n, last, r) && last != []
    ensures if n - 2 > 0
      then n - 3 in at && Scanning(Undone(t, at[n - 1]), at, base, n - 2, [], at[n - 3] + 1)
      else Scanning(Undone(t, at[n - 1]), at, n - 2, n - 2, [], 0)
  {
    hide Small;
    var k := at[n - 1];
    var t' := Undone(t, k);
    if n - 2 > 0 {
      var p, pp := at[n - 2], at[n - 3];
      UndonePrefix(t, k, p);
      assert forall j :: 0 <= j <= p ==> t'[j] == t'[..p + 1][j] == t[j];
      forall j | 0 <= j < pp + 1
        ensures !Small(t', j)
      {
        SmallSame(t, t', j, p);
      }
    }
  }

  // ---------------------------------------------------------------- costly equalities

  function Count(b: bool): nat { if b then 1 else 0 }

  /** Whether there are insertions and deletions before a place, and after it. */
  datatype Sides = Sides(preIns: bool, preDel: bool, postIns: bool, postDel: bool)
  {
    function Number(): nat { Count(preIns) + Count(preDel) + Count(postIns) + Count(postDel) }
  }

  function SidesAt(t: seq<Edit>, k: nat): Sides
    requires k < |t|
  {
    Sides(Before(t, k, Number(Insert)) > 0, Before(t, k, Number(Delete)) > 0,
          After(t, k, Number(Insert)) > 0, After(t, k, Number(Delete)) > 0)
  }

  predicate Saves(length: nat, editCost: int, s: Sides) {
    s.Number() == 4 || (2 * length < editCost && s.Number() == 3)
  }

  /** Undoing the equality saves edits at the given cost: it is short, an edit comes before it, and there are insertions
      and deletions on both sides, or three of the four if it is shorter than half the cost. */
  ghost predicate Costly(t: seq<Edit>, k: int, editCost: int) {
    && 0 <= k < |t| && t[k].op.Equal? && 0 < |t[k].text| < editCost
    && (SidesAt(t, k).preIns || SidesAt(t, k).preDel)
    && Saves(|t[k].text|, editCost, SidesAt(t, k))
  }

  ghost predicate NoneCostly(t: seq<Edit>, editCost: int) { forall k :: !Costly(t, k, editCost) }

  /** `t` comes from `t0` by undoing `n` costly equalities, one after the other. */
  ghost predicate UndoesCostly(t0: seq<Edit>, t: seq<Edit>, editCost: int, n: nat)
    decreases n
  {
    if n == 0 then t == t0
    else exists t1, k: nat :: UndoesCostly(t0, t1, editCost, n - 1) && Costly(t1, k, editCost) && t == Undone(t1, k)
  }

  lemma {:induction false} FirstCostly(t0: seq<Edit>, t: seq<Edit>, editCost: int, n: nat)
    requires UndoesCostly(t0, t, editCost, n) && n > 0
    ensures exists k :: Costly(t0, k, editCost)
    decreases n
  {
    var t1, k: nat :| UndoesCostly(t0, t1, editCost, n - 1) && Costly(t1, k, editCost) && t == Undone(t1, k);
    if n > 1 {
      FirstCostly(t0, t1, editCost, n - 1);
    }
  }

  lemma {:induction false} CostlySame(t: seq<Edit>, t': seq<Edit>, k: nat, m: nat, editCost: int)
    requires k < m < |t| && m < |t'| && t[..m + 1] == t'[..m + 1] && t[m].op.Equal?
    ensures Costly(t, k, editCost) <==> Costly(t', k, editCost)
  {
    assert t[k] == t[..m + 1][k] == t'[k];
    assert t[..k] == t[..m + 1][..k] == t'[..k];
    SameBefore(t, t', k, Number(Insert));
    SameBefore(t, t', k, Number(Delete));
    SameAfter(t, t', k, m, Number(Insert));
    SameAfter(t, t', k, m, Number(Delete));
  }

  /** The scan for costly equalities: `at` lists equalities before `r`, in order. The last of them is the last equality
      before `r` if it is in mind, and all others before `r` are not costly. */
  ghost predicate Looking(t: seq<Edit>, at: map<int, int>, base: int, n: int, inMind: bool, r: int, editCost: int) {
    && base <= n && base <= 0 && 0 <= r <= |t|
    && (forall j :: base <= j < n ==> j in at && 0 <= at[j] < r && t[at[j]].op.Equal?)
    && (forall i, j :: base <= i < j < n ==> at[i] < at[j])
    && (inMind ==> n > base && NoEquality(t, at[n - 1] + 1, r))
    && (forall j :: 0 <= j < r && (inMind ==> j != at[n - 1]) ==> !Costly(t, j, editCost))
  }

  ghost predicate Flagged(t: seq<Edit>, r: int, ins: bool, del: bool) {
    && 0 <= r <= |t|
    && (ins <==> Before(t, r, Number(Insert)) > 0) && (del <==> Before(t, r, Number(Delete)) > 0)
  }

  /** The equality in mind is short and follows an edit, and has not turned out to be costly. */
  ghost predicate InMind(t: seq<Edit>, k: int, r: int, s: Sides, editCost: int) {
    && 0 <= k < r <= |t| && t[k].op.Equal? && 0 < |t[k].text| < editCost && NoEquality(t, k + 1, r)
    && (s.preIns <==> Before(t, k, Number(Insert)) > 0) && (s.preDel <==> Before(t, k, Number(Delete)) > 0)
    && (s.preIns || s.preDel)
  }

  lemma {:induction false} InMindOver(t: seq<Edit>, k: int, r: int, s: Sides, editCost: int)
    requires InMind(t, k, r, s, editCost) && Flagged(t, r, s.postIns, s.postDel) && (r == |t| || t[r].op.Equal?)
    requires !Saves(|t[k].text|, editCost, s)
    ensures !Costly(t, k, editCost)
  {
    WeighedSoFar(t, k, r, Number(Insert));
    WeighedSoFar(t, k, r, Number(Delete));
  }

  lemma {:induction false} InMindCostly(t: seq<Edit>, k: int, r: int, s: Sides, editCost: int)
    requires InMind(t, k, r + 1, s, editCost) && k < r < |t| && Flagged(t, r + 1, s.postIns, s.postDel)
    requires Saves(|t[k].text|, editCost, s)
    ensures Costly(t, k, editCost)
  {
    WeighedSoFar(t, k, r + 1, Number(Insert));
    WeighedSoFar(t, k, r + 1, Number(Delete));
  }

  lemma {:induction false} FlaggedOn(t: seq<Edit>, r: int, ins: bool, del: bool)
    requires Flagged(t, r, ins, del) && r < |t|
    ensures if t[r].op.Equal? then Flagged(t, r + 1, false, false)
            else if t[r].op.Insert? then Flagged(t, r + 1, true, del)
            else Flagged(t, r + 1, ins, true)
  {
  }

  /** An equality that is long or empty, or that follows no edit, is not costly. */
  lemma {:induction false} NotCostly(t: seq<Edit>, r: int, ins: bool, del: bool, editCost: int)
    requires Flagged(t, r, ins, del) && r < |t| && t[r].op.Equal?
    requires t[r].text == [] || |t[r].text| >= editCost || !(ins || del)
    ensures !Costly(t, r, editCost)
  {
  }

  lemma {:induction false} LookEquality(t: seq<Edit>, at: map<int, int>, base: int, n: int, inMind: bool, r: int,
                                        editCost: int)
    requires Looking(t, at, base, n, inMind, r, editCost) && r < |t| && t[r].op.Equal?
    requires inMind ==> !Costly(t, at[n - 1], editCost)
    ensures Looking(t, at[n := r], base, n + 1, true, r + 1, editCost)
    ensures !Costly(t, r, editCost) ==>
      Looking(t, at[n := r], base, n + 1, false, r + 1, editCost) && Looking(t, at, 0, 0, false, r + 1, editCost)
  {
    hide Costly;
  }

  lemma {:induction false} LookEdit(t: seq<Edit>, at: map<int, int>, base: int, n: int, inMind: bool, r: int,
                                    editCost: int)
    requires Looking(t, at, base, n, inMind, r, editCost) && r < |t| && !t[r].op.Equal?
    ensures Looking(t, at, base, n, inMind, r + 1, editCost)
  {
    assert !Costly(t, r, editCost);
    hide Costly;
  }

  /** After the equality in mind has been undone, the scan can go on behind the one before the one before it. */
  lemma {:induction false} LookUndone(t: seq<Edit>, at: map<int, int>, base: int, n: int, r: int, editCost: int)
    requires Looking(t, at, base, n, true, r, editCost)
    ensures if n - 2 > 0
      then n - 3 in at && Looking(Undone(t, at[n - 1]), at, base, n - 2, false, at[n - 3] + 1, editCost)
      else Looking(Undone(t, at[n - 1]), at, n - 2, n - 2, false, 0, editCost)
  {
    hide Costly;
    var k := at[n - 1];
    var t' := Undone(t, k);
    if n - 2 > 0 {
      var p, pp := at[n - 2], at[n - 3];
      UndonePrefix(t, k, p);
      assert forall j :: 0 <= j <= p ==> t'[j] == t'[..p + 1][j] == t[j];
      forall j | 0 <= j < pp + 1
        ensures !Costly(t', j, editCost)
      {
        CostlySame(t, t', j, p, editCost);
      }
    }
  }

  // ---------------------------------------------------------------- going on behind an undone equality

  /** Weighing goes on as if the equality had been the two edits all along. */
  lemma {:induction false} BeforeUndone(t: seq<Edit>, k: nat, m: nat, w: Measure)
    requires k < m <= |t| && t[k].op.Equal? && NoEquality(t, k + 1, m)
    ensures Before(Undone(t, k), m + 1, w)
      == Before(t, k, w) + Weigh(Edit(Delete, t[k].text), w) + Weigh(Edit(Insert, t[k].text), w) + Before(t, m, w)
  {
    var t' := Undone(t, k);
    if m == k + 1 {
      assert t'[..k] == t[..k];
      SameBefore(t, t', k, w);
      assert t'[k] == Edit(Delete, t[k].text) && t'[k + 1] == Edit(Insert, t[k].text);
      assert Before(t', k + 1, w) == Before(t', k, w) + Weigh(t'[k], w);
    } else {
      BeforeUndone(t, k, m - 1, w);
      assert t'[m] == t[m - 1];
    }
  }

  lemma {:induction false} AfterUndone(t: seq<Edit>, p: nat, k: nat, w: Measure)
    requires p < k < |t| && t[p].op.Equal? && t[k].op.Equal? && NoEquality(t, p + 1, k)
    ensures After(Undone(t, k), p, w) >= After(t, p, w)
    decreases k - p
  {
    var t' := Undone(t, k);
    WeighedSoFar(t, p, k, w);
    assert t'[..k] == t[..k];
    SameBefore(t, t', k, w);
    assert forall j :: 0 <= j < k ==> t'[j] == t[j];
    WeighedSoFar(t', p, k, w);
  }

  lemma {:induction false} EarlierNotCostly(t: seq<Edit>, j: nat, k: nat, editCost: int)
    requires j < k < |t| && t[k].op.Equal? && !Costly(t, j, editCost)
    requires Before(t, k, Number(Insert)) > 0 && Before(t, k, Number(Delete)) > 0
    ensures !Costly(Undone(t, k), j, editCost)
  {
    var t' := Undone(t, k);
    UndonePrefix(t, k, j);
    assert t'[..j + 1][j] == t[j];
    if !t[j].op.Equal? {
    } else if m: nat :| j < m < k && t[m].op.Equal? {
      UndonePrefix(t, k, m);
      CostlySame(t, t', j, m, editCost);
    } else {
      NextToUndone(t, j, k);
    }
  }

  lemma {:induction false} NextToUndone(t: seq<Edit>, j: nat, k: nat)
    requires j < k < |t| && t[j].op.Equal? && t[k].op.Equal? && NoEquality(t, j + 1, k)
    requires Before(t, k, Number(Insert)) > 0 && Before(t, k, Number(Delete)) > 0
    ensures SidesAt(Undone(t, k), j) == SidesAt(t, j)
  {
    var t' := Undone(t, k);
    UndonePrefix(t, k, j);
    assert t'[..j] == t[..j];
    SameBefore(t, t', j, Number(Insert));
    SameBefore(t, t', j, Number(Delete));
    WeighedSoFar(t, j, k, Number(Insert));
    WeighedSoFar(t, j, k, Number(Delete));
    AfterUndone(t, j, k, Number(Insert));
    AfterUndone(t, j, k, Number(Delete));
  }

  /** After the equality in mind has been undone with insertions and deletions before it, the scan goes on. */
  lemma {:induction false} LookOn(t: seq<Edit>, at: map<int, int>, base: int, n: int, r: int, editCost: int)
    requires Looking(t, at, base, n, true, r, editCost)
    requires var k := at[n - 1]; Before(t, k, Number(Insert)) > 0 && Before(t, k, Number(Delete)) > 0
    ensures var t' := Undone(t, at[n - 1]);
      Looking(t', at, 0, 0, false, r + 1, editCost) && Flagged(t', r + 1, true, true)
  {
    var k := at[n - 1];
    var t' := Undone(t, k);
    forall j | 0 <= j < r + 1
      ensures !Costly(t', j, editCost)
    {
      if j < k {
        EarlierNotCostly(t, j, k, editCost);
      } else if j > k + 1 {
        assert t'[j] == t[j - 1];
      }
    }
    BeforeUndone(t, k, r, Number(Insert));
    BeforeUndone(t, k, r, Number(Delete));
  }
}
