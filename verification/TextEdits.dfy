/** Texts, edit lists, and what two texts have in common at their ends. */
module TextEdits {

  /** JavaScript strings are sequences of 16-bit units. */
  type Unit = x: int | 0 <= x < 0x10000

  type Text = seq<Unit>

  datatype Op = Equal | Delete | Insert

  datatype Edit = Edit(op: Op, text: Text)

  /** The texts of a list of edits, without those of one kind. */
  function Side(t: seq<Edit>, skip: Op): Text {
    if t == [] then [] else Side(t[..|t| - 1], skip) + Part(t[|t| - 1], skip)
  }

  function Part(e: Edit, skip: Op): Text { if e.op == skip then [] else e.text }

  /** The text that a list of edits starts from. */
  function Old(t: seq<Edit>): Text { Side(t, Insert) }

  /** The text that it leads to. */
  function New(t: seq<Edit>): Text { Side(t, Delete) }

  function OldOf(e: Edit): Text { Part(e, Insert) }

  function NewOf(e: Edit): Text { Part(e, Delete) }

  /** The two lists lead from the same text to the same text. */
  ghost predicate SameTexts(t: seq<Edit>, t': seq<Edit>) { Old(t) == Old(t') && New(t) == New(t') }

  lemma {:induction false} Regroup(a: Text, b: Text, c: Text)
    ensures (a + b) + c == a + (b + c)
  {
  }

  lemma {:induction false} SideJoin(a: seq<Edit>, b: seq<Edit>, skip: Op)
    ensures Side(a + b, skip) == Side(a, skip) + Side(b, skip)
    decreases |b|
  {
    var c := a + b;
    if b == [] {
      assert c == a;
    } else {
      var n := |b| - 1;
      SideJoin(a, b[..n], skip);
      assert c[..|c| - 1] == a + b[..n] && c[|c| - 1] == b[n];
      Regroup(Side(a, skip), Side(b[..n], skip), Part(b[n], skip));
    }
  }

  lemma {:induction false} TextsJoin(a: seq<Edit>, b: seq<Edit>)
    ensures Old(a + b) == Old(a) + Old(b) && New(a + b) == New(a) + New(b)
  {
    SideJoin(a, b, Insert);
    SideJoin(a, b, Delete);
  }

  /** Replaces the edits from `i` up to `j`. */
  function Splice(t: seq<Edit>, i: nat, j: nat, mid: seq<Edit>): (r: seq<Edit>)
    requires i <= j <= |t|
    ensures |r| == |t| - (j - i) + |mid|
  {
    t[..i] + mid + t[j..]
  }

  lemma {:induction false} SpliceSide(t: seq<Edit>, i: nat, j: nat, mid: seq<Edit>, skip: Op)
    requires i <= j <= |t|
    ensures Side(Splice(t, i, j, mid), skip) == Side(t[..i], skip) + Side(mid, skip) + Side(t[j..], skip)
  {
    hide Side;
    SideJoin(t[..i] + mid, t[j..], skip);
    SideJoin(t[..i], mid, skip);
  }

  lemma {:induction false} SpliceSelf(t: seq<Edit>, i: nat, j: nat)
    requires i <= j <= |t|
    ensures Splice(t, i, j, t[i..j]) == t
  {
  }

  lemma {:induction false} SpliceKeeps(t: seq<Edit>, i: nat, j: nat, mid: seq<Edit>)
    requires i <= j <= |t| && SameTexts(t[i..j], mid)
    ensures SameTexts(t, Splice(t, i, j, mid))
  {
    hide Side, Splice;
    SpliceSelf(t, i, j);
    SpliceSide(t, i, j, mid, Insert);
    SpliceSide(t, i, j, mid, Delete);
    SpliceSide(t, i, j, t[i..j], Insert);
    SpliceSide(t, i, j, t[i..j], Delete);
  }

  lemma {:induction false} OneSide(e: Edit, skip: Op)
    ensures Side([e], skip) == Part(e, skip)
  {
    var t := [e];
    assert t[..|t| - 1] == [];
    assert Side(t, skip) == Side(t[..|t| - 1], skip) + Part(t[|t| - 1], skip);
    assert Side([], skip) == [];
  }

  lemma {:induction false} OneEdit(e: Edit)
    ensures Old([e]) == OldOf(e) && New([e]) == NewOf(e)
  {
    OneSide(e, Insert);
    OneSide(e, Delete);
  }

  lemma {:induction false} TwoEdits(d: Edit, e: Edit)
    ensures Old([d, e]) == OldOf(d) + OldOf(e) && New([d, e]) == NewOf(d) + NewOf(e)
  {
    hide Side;
    OneEdit(d);
    OneEdit(e);
    TextsJoin([d], [e]);
    assert [d] + [e] == [d, e];
  }

  lemma {:induction false} ThreeEdits(c: Edit, d: Edit, e: Edit)
    ensures Old([c, d, e]) == OldOf(c) + OldOf(d) + OldOf(e) && New([c, d, e]) == NewOf(c) + NewOf(d) + NewOf(e)
  {
    hide Side;
    TwoEdits(c, d);
    OneEdit(e);
    TextsJoin([c, d], [e]);
    assert [c, d] + [e] == [c, d, e];
  }

  // ---------------------------------------------------------------- common prefix, suffix and overlap

  function Min(a: nat, b: nat): nat { if a < b then a else b }

  ghost predicate IsCommonPrefix(t: Text, n: Text, k: nat) { k <= |t| && k <= |n| && t[..k] == n[..k] }

  ghost predicate IsCommonSuffix(t: Text, n: Text, k: nat) { k <= |t| && k <= |n| && t[|t| - k..] == n[|n| - k..] }

  /** A suffix of `t` that is a prefix of `n`. */
  ghost predicate IsOverlap(t: Text, n: Text, k: nat) { k <= |t| && k <= |n| && t[|t| - k..] == n[..k] }

  lemma {:induction false} ShorterPrefix(t: Text, n: Text, k: nat, k': nat)
    requires IsCommonPrefix(t, n, k) && k' <= k
    ensures IsCommonPrefix(t, n, k')
  {
    assert t[..k'] == t[..k][..k'] && n[..k'] == n[..k][..k'];
  }

  lemma {:induction false} ShorterSuffix(t: Text, n: Text, k: nat, k': nat)
    requires IsCommonSuffix(t, n, k) && k' <= k
    ensures IsCommonSuffix(t, n, k')
  {
    assert t[|t| - k'..] == t[|t| - k..][k - k'..] && n[|n| - k'..] == n[|n| - k..][k - k'..];
  }

  lemma {:induction false} PrefixSplit(t: Text, n: Text, k: nat, k': nat)
    requires k <= k' <= |t| && k' <= |n| && IsCommonPrefix(t, n, k)
    ensures IsCommonPrefix(t, n, k') <==> t[k..k'] == n[k..k']
  {
    assert t[..k'] == t[..k] + t[k..k'] && n[..k'] == n[..k] + n[k..k'];
    if IsCommonPrefix(t, n, k') {
      assert t[k..k'] == t[..k'][k..];
    }
  }

  lemma {:induction false} SuffixSplit(t: Text, n: Text, k: nat, k': nat)
    requires k <= k' <= |t| && k' <= |n| && IsCommonSuffix(t, n, k)
    ensures IsCommonSuffix(t, n, k') <==> t[|t| - k'..|t| - k] == n[|n| - k'..|n| - k]
  {
    assert t[|t| - k'..] == t[|t| - k'..|t| - k] + t[|t| - k..];
    assert n[|n| - k'..] == n[|n| - k'..|n| - k] + n[|n| - k..];
    if IsCommonSuffix(t, n, k') {
      assert t[|t| - k'..|t| - k] == t[|t| - k'..][..k' - k];
    }
  }

  lemma {:induction false} NoneCommon(t: Text, n: Text)
    ensures IsCommonPrefix(t, n, 0) && IsCommonSuffix(t, n, 0)
  {
  }

  lemma {:induction false} CommonBounds(t: Text, n: Text, j: nat)
    ensures IsCommonPrefix(t, n, j) || IsCommonSuffix(t, n, j) ==> j <= |t| && j <= |n|
  {
  }

  lemma {:induction false} FirstOfPrefix(t: Text, n: Text, j: nat)
    requires IsCommonPrefix(t, n, j) && j > 0
    ensures t[0] == n[0]
  {
    assert t[..j][0] == n[..j][0];
  }

  lemma {:induction false} LastOfSuffix(t: Text, n: Text, j: nat)
    requires IsCommonSuffix(t, n, j) && j > 0
    ensures t[|t| - 1] == n[|n| - 1]
  {
    assert t[|t| - j..][j - 1] == n[|n| - j..][j - 1];
  }

  /** The length of the longest common prefix, by bisection. */
  method CommonPrefix(t: Text, n: Text) returns (k: nat)
    ensures IsCommonPrefix(t, n, k)
    ensures forall j: nat :: IsCommonPrefix(t, n, j) ==> j <= k
  {
    hide IsCommonPrefix;
    NoneCommon(t, n);
    if |t| == 0 || |n| == 0 || t[0] != n[0] {
      forall j: nat | IsCommonPrefix(t, n, j)
        ensures j == 0
      {
        CommonBounds(t, n, j);
        if j > 0 {
          FirstOfPrefix(t, n, j);
        }
      }
      return 0;
    }
    var low := 0;
    var high := Min(|t|, |n|);
    var mid := high;
    var start := 0;
    while mid > low
      invariant 0 <= low <= mid <= high <= Min(|t|, |n|) && start == low
      invariant IsCommonPrefix(t, n, low)
      invariant mid == low ==> high <= low + 1 && (high == low || !IsCommonPrefix(t, n, high))
      invariant mid < high ==> !IsCommonPrefix(t, n, high)
      invariant high == Min(|t|, |n|) || !IsCommonPrefix(t, n, high)
      decreases high - low, mid - low
    {
      PrefixSplit(t, n, low, mid);
      if t[start..mid] == n[start..mid] {
        low := mid;
        start := low;
      } else {
        high := mid;
      }
      mid := (high - low) / 2 + low;
    }
    forall j: nat | IsCommonPrefix(t, n, j)
      ensures j <= mid
    {
      CommonBounds(t, n, j);
      if j > mid {
        ShorterPrefix(t, n, j, high);
      }
    }
    return mid;
  }

  /** The length of the longest common suffix, by bisection. */
  method CommonSuffix(t: Text, n: Text) returns (k: nat)
    ensures IsCommonSuffix(t, n, k)
    ensures forall j: nat :: IsCommonSuffix(t, n, j) ==> j <= k
  {
    hide IsCommonSuffix;
    NoneCommon(t, n);
    if |t| == 0 || |n| == 0 || t[|t| - 1] != n[|n| - 1] {
      forall j: nat | IsCommonSuffix(t, n, j)
        ensures j == 0
      {
        CommonBounds(t, n, j);
        if j > 0 {
          LastOfSuffix(t, n, j);
        }
      }
      return 0;
    }
    var low := 0;
    var high := Min(|t|, |n|);
    var mid := high;
    var end := 0;
    while mid > low
      invariant 0 <= low <= mid <= high <= Min(|t|, |n|) && end == low
      invariant IsCommonSuffix(t, n, low)
      invariant mid == low ==> high <= low + 1 && (high == low || !IsCommonSuffix(t, n, high))
      invariant mid < high ==> !IsCommonSuffix(t, n, high)
      invariant high == Min(|t|, |n|) || !IsCommonSuffix(t, n, high)
      decreases high - low, mid - low
    {
      SuffixSplit(t, n, low, mid);
      if t[|t| - mid..|t| - end] == n[|n| - mid..|n| - end] {
        low := mid;
        end := low;
      } else {
        high := mid;
      }
      mid := (high - low) / 2 + low;
    }
    forall j: nat | IsCommonSuffix(t, n, j)
      ensures j <= mid
    {
      CommonBounds(t, n, j);
      if j > mid {
        ShorterSuffix(t, n, j, high);
      }
    }
    return mid;
  }

  predicate OccursAt(n: Text, a: Text, k: nat) { k + |a| <= |n| && n[k..k + |a|] == a }

  /** The first place at or after `from` where `a` occurs in `n`, or -1. */
  function IndexOf(n: Text, a: Text, from: nat): (r: int)
    ensures -1 <= r && (r >= 0 ==> r >= from && OccursAt(n, a, r))
    ensures forall k: nat :: from <= k && (r < 0 || k < r) ==> !OccursAt(n, a, k)
    decreases |n| - from
  {
    if from + |a| > |n| then -1
    else if OccursAt(n, a, from) then from
    else
      var r := IndexOf(n, a, from + 1);
      assert forall k: nat :: from <= k && (r < 0 || k < r) ==> k == from || !OccursAt(n, a, k);
      r
  }

  /** Where a longer overlap ends, so does a suffix of it: that suffix occurs in `n`. */
  lemma {:induction false} OverlapOccurs(t: Text, n: Text, k: nat, f: nat)
    requires IsOverlap(t, n, k) && f <= k
    ensures OccursAt(n, t[|t| - f..], k - f)
  {
    assert t[|t| - f..] == t[|t| - k..][k - f..];
    assert n[k - f..k] == n[..k][k - f..];
  }

  lemma {:induction false} TrimOverlaps(t: Text, n: Text, k: nat)
    ensures var h := Min(|t|, |n|); IsOverlap(t[|t| - h..], n[..h], k) <==> IsOverlap(t, n, k)
  {
    var h := Min(|t|, |n|);
    if k <= h {
      TrimSlices(t, n, h, k);
      SameOverlap(t, n, t[|t| - h..], n[..h], k);
    }
  }

  lemma {:induction false} SameOverlap(t: Text, n: Text, t': Text, n': Text, k: nat)
    requires k <= |t| && k <= |n| && k <= |t'| && k <= |n'|
    requires t'[|t'| - k..] == t[|t| - k..] && n'[..k] == n[..k]
    ensures IsOverlap(t', n', k) <==> IsOverlap(t, n, k)
  {
  }

  lemma {:induction false} TrimSlices(t: Text, n: Text, h: nat, k: nat)
    requires k <= h <= |t| && h <= |n|
    ensures t[|t| - h..][h - k..] == t[|t| - k..] && n[..h][..k] == n[..k]
  {
  }

  /** The length of the longest suffix of the first text that is a prefix of the second. */
  method CommonOverlap(text1: Text, text2: Text) returns (best: nat)
    ensures IsOverlap(text1, text2, best)
    ensures forall k: nat :: IsOverlap(text1, text2, k) ==> k <= best
  {
    if |text1| == 0 || |text2| == 0 {
      return 0;
    }
    var h := Min(|text1|, |text2|);
    var t, n := text1[|text1| - h..], text2[..h];
    forall k: nat
      ensures IsOverlap(t, n, k) <==> IsOverlap(text1, text2, k)
    {
      TrimOverlaps(text1, text2, k);
    }
    hide IsOverlap;
    if t == n {
      SelfOverlap(t);
      return h;
    }
    best := 0;
    var length := 1;
    while true
      invariant 0 <= best < length <= h && IsOverlap(t, n, best)
      invariant forall k: nat :: best < k < length ==> !IsOverlap(t, n, k)
      decreases h - length
    {
      var pattern := t[h - length..];
      var found := IndexOf(n, pattern, 0);
      LongerOverlaps(t, n, length, found);
      if found == -1 {
        return;
      }
      FullOverlap(t, n);
      length := length + found;
      if found == 0 || t[h - length..] == n[..length] {
        SuffixOverlap(t, n, length);
        best := length;
        length := length + 1;
      }
    }
  }

  lemma {:induction false} SelfOverlap(t: Text)
    ensures IsOverlap(t, t, |t|)
  {
    assert t[0..] == t[..|t|];
  }

  lemma {:induction false} SuffixOverlap(t: Text, n: Text, k: nat)
    requires k <= |t| == |n| && (OccursAt(n, t[|t| - k..], 0) || t[|t| - k..] == n[..k])
    ensures IsOverlap(t, n, k)
  {
    assert n[0..k] == n[..k];
  }

  /** No overlap can end before the first place where the suffix of length `f` occurs. */
  lemma {:induction false} LongerOverlaps(t: Text, n: Text, f: nat, found: int)
    requires f <= |t| && found == IndexOf(n, t[|t| - f..], 0)
    ensures forall k: nat :: IsOverlap(t, n, k) && k >= f ==> found >= 0 && k >= f + found
  {
    forall k: nat | IsOverlap(t, n, k) && k >= f
      ensures found >= 0 && k >= f + found
    {
      OverlapOccurs(t, n, k, f);
    }
  }

  lemma {:induction false} FullOverlap(t: Text, n: Text)
    requires |t| == |n| && t != n
    ensures !IsOverlap(t, n, |t|)
  {
    assert t[0..] == t && n[..|t|] == n;
  }
}
