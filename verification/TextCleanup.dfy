/** Merging and reordering a list of edits. */
module TextCleanup {
  import opened TextEdits

  // ---------------------------------------------------------------- the merged form

  ghost predicate NoCommonEnds(a: Text, b: Text) {
    && (forall j: nat :: IsCommonPrefix(a, b, j) ==> j == 0)
    && (forall j: nat :: IsCommonSuffix(a, b, j) ==> j == 0)
  }

  /** Equalities are apart, and between two of them a deletion or an insertion, or first a deletion and then an
      insertion that has nothing in common with it at either end. */
  ghost predicate Fits(a: Edit, b: Edit) {
    match a.op
    case Equal => !b.op.Equal?
    case Delete => !b.op.Delete? && (b.op.Insert? ==> NoCommonEnds(b.text, a.text))
    case Insert => b.op.Equal?
  }

  ghost predicate Merged(t: seq<Edit>) { forall k: nat :: k + 1 < |t| ==> Fits(t[k], t[k + 1]) }

  /** No equality is empty. */
  ghost predicate Proper(t: seq<Edit>) { forall k :: 0 <= k < |t| && t[k].op.Equal? ==> t[k].text != [] }

  lemma {:induction false} MergedJoin(a: seq<Edit>, b: seq<Edit>)
    requires Merged(a) && Merged(b) && (a != [] && b != [] ==> Fits(a[|a| - 1], b[0]))
    ensures Merged(a + b)
  {
    hide Fits;
    var c := a + b;
    forall k: nat | k + 1 < |c|
      ensures Fits(c[k], c[k + 1])
    {
      if k + 1 < |a| {
        assert c[k] == a[k] && c[k + 1] == a[k + 1];
      } else if k >= |a| {
        assert c[k] == b[k - |a|] && c[k + 1] == b[k - |a| + 1];
      }
    }
  }

  lemma {:induction false} MergedPrefix(t: seq<Edit>, k: nat)
    requires Merged(t) && k <= |t|
    ensures Merged(t[..k])
  {
    hide Fits;
    forall j: nat | j + 1 < k
      ensures Fits(t[..k][j], t[..k][j + 1])
    {
      assert t[..k][j] == t[j] && t[..k][j + 1] == t[j + 1];
    }
  }

  // ---------------------------------------------------------------- the measure

  /** The number of characters in deletions and insertions. */
  function Chars(t: seq<Edit>): nat {
    if t == [] then 0 else Chars(t[..|t| - 1]) + CharsOf(t[|t| - 1])
  }

  function CharsOf(e: Edit): nat { if e.op.Equal? then 0 else |e.text| }

  lemma {:induction false} CharsJoin(a: seq<Edit>, b: seq<Edit>)
    ensures Chars(a + b) == Chars(a) + Chars(b)
    decreases |b|
  {
    var c := a + b;
    if b == [] {
      assert c == a;
    } else {
      var n := |b| - 1;
      CharsJoin(a, b[..n]);
      assert c[..|c| - 1] == a + b[..n] && c[|c| - 1] == b[n];
    }
  }

  lemma {:induction false} CharsOne(e: Edit)
    ensures Chars([e]) == CharsOf(e)
  {
    var t := [e];
    assert t[..|t| - 1] == [];
    assert Chars(t) == Chars(t[..|t| - 1]) + CharsOf(t[|t| - 1]);
  }

  lemma {:induction false} CharsSplice(t: seq<Edit>, i: nat, j: nat, mid: seq<Edit>)
    requires i <= j <= |t|
    ensures Chars(Splice(t, i, j, mid)) == Chars(t) - Chars(t[i..j]) + Chars(mid)
  {
    hide Chars;
    assert t == t[..i] + t[i..j] + t[j..];
    CharsJoin(t[..i] + t[i..j], t[j..]);
    CharsJoin(t[..i], t[i..j]);
    CharsJoin(t[..i] + mid, t[j..]);
    CharsJoin(t[..i], mid);
  }

  /** Fewer characters are edited, or as many in no more edits. */
  predicate NoLarger(chars: nat, length: nat, t: seq<Edit>) { chars < Chars(t) || (chars == Chars(t) && length <= |t|) }

  // ---------------------------------------------------------------- closing a group of edits

  /** The edits from `s` up to `e`, of which `deletes` are deletions, take `deleted` away and put `inserted` there. */
  ghost predicate Group(t: seq<Edit>, s: nat, e: nat, deletes: nat, inserts: nat, deleted: Text, inserted: Text) {
    && s <= e <= |t| && deletes + inserts == e - s
    && (forall k :: s <= k < e ==> !t[k].op.Equal?)
    && (s > 0 ==> t[s - 1].op.Equal?)
    && Old(t[s..e]) == deleted && New(t[s..e]) == inserted && Chars(t[s..e]) == |deleted| + |inserted|
    && (deletes == 0 ==> deleted == []) && (inserts == 0 ==> inserted == [])
  }

  /** What a group comes down to. */
  function Reduced(deletes: nat, inserts: nat, deleted: Text, inserted: Text): (r: seq<Edit>)
    requires deletes + inserts > 0
    ensures 1 <= |r| <= 2
  {
    if deletes == 0 then [Edit(Insert, inserted)]
    else if inserts == 0 then [Edit(Delete, deleted)]
    else [Edit(Delete, deleted), Edit(Insert, inserted)]
  }

  lemma {:induction false} ReducedTexts(deletes: nat, inserts: nat, deleted: Text, inserted: Text)
    requires deletes + inserts > 0 && (deletes == 0 ==> deleted == []) && (inserts == 0 ==> inserted == [])
    ensures var r := Reduced(deletes, inserts, deleted, inserted);
      Old(r) == deleted && New(r) == inserted && Chars(r) == |deleted| + |inserted|
  {
    hide Side, Chars;
    var d, i := Edit(Delete, deleted), Edit(Insert, inserted);
    OneEdit(d);
    OneEdit(i);
    CharsOne(d);
    CharsOne(i);
    TwoEdits(d, i);
    CharsJoin([d], [i]);
    assert [d] + [i] == [d, i];
    assert deleted + [] == deleted && [] + inserted == inserted;
  }

  /** The start of the texts that an equality before the group, if any, ends with. */
  function Lead(before: seq<Edit>, prefix: Text): seq<Edit>
    requires |before| <= 1
  {
    if before != [] then [Edit(Equal, before[0].text + prefix)] else if prefix != [] then [Edit(Equal, prefix)] else []
  }

  lemma {:induction false} LeadTexts(before: seq<Edit>, prefix: Text)
    requires |before| <= 1 && (before != [] ==> before[0].op.Equal?)
    ensures var r := Lead(before, prefix);
      Old(r) == Old(before) + prefix && New(r) == New(before) + prefix && Chars(r) == 0 && Chars(before) == 0
    ensures |Lead(before, prefix)| <= |before| + if prefix == [] then 0 else 1
  {
    if before != [] {
      assert before == [before[0]];
      OneEdit(before[0]);
      OneEdit(Edit(Equal, before[0].text + prefix));
    } else if prefix != [] {
      OneEdit(Edit(Equal, prefix));
      assert [] + prefix == prefix;
    }
  }

  lemma {:induction false} Around(a: Text, p: Text, m: Text, q: Text, b: Text)
    ensures (a + p) + m + (q + b) == a + (p + m + q) + b
  {
  }

  /** Moving a common prefix and suffix of deletion and insertion into the equalities around them keeps the texts. */
  lemma {:induction false} RegionTexts(before: seq<Edit>, group: seq<Edit>, after: Edit, group': seq<Edit>,
                                       prefix: Text, suffix: Text, deleted: Text, inserted: Text)
    requires |before| <= 1 && (before != [] ==> before[0].op.Equal?) && after.op.Equal?
    requires Old(group) == prefix + deleted + suffix && New(group) == prefix + inserted + suffix
    requires Old(group') == deleted && New(group') == inserted
    ensures SameTexts(before + group + [after], Lead(before, prefix) + group' + [Edit(Equal, suffix + after.text)])
  {
    hide Side, Lead;
    var after' := Edit(Equal, suffix + after.text);
    LeadTexts(before, prefix);
    OneEdit(after);
    OneEdit(after');
    TextsJoin(before + group, [after]);
    TextsJoin(before, group);
    TextsJoin(Lead(before, prefix) + group', [after']);
    TextsJoin(Lead(before, prefix), group');
    Around(Old(before), prefix, deleted, suffix, after.text);
    Around(New(before), prefix, inserted, suffix, after.text);
  }

  lemma {:induction false} RegionChars(before: seq<Edit>, group: seq<Edit>, after: Edit)
    requires after.op.Equal?
    ensures Chars(before + group + [after]) == Chars(before) + Chars(group)
  {
    hide Chars;
    CharsOne(after);
    CharsJoin(before + group, [after]);
    CharsJoin(before, group);
  }

  lemma {:induction false} RegionMerged(before: seq<Edit>, group: seq<Edit>, after: Edit)
    requires |before| <= 1 && (before != [] ==> before[0].op.Equal?) && after.op.Equal?
    requires Merged(group) && group != [] && forall k :: 0 <= k < |group| ==> !group[k].op.Equal?
    ensures Merged(before + group + [after])
  {
    MergedJoin(before, group);
    MergedJoin(before + group, [after]);
  }

  /** The parts of deletion and insertion that are common at their ends. */
  method CommonEnds(deletes: nat, inserts: nat, deleted: Text, inserted: Text)
    returns (prefix: Text, suffix: Text, deleted': Text, inserted': Text)
    requires (deletes == 0 ==> deleted == []) && (inserts == 0 ==> inserted == [])
    ensures deleted == prefix + deleted' + suffix && inserted == prefix + inserted' + suffix
    ensures deletes > 0 && inserts > 0 ==> NoCommonEnds(inserted', deleted')
  {
    prefix, suffix, deleted', inserted' := [], [], deleted, inserted;
    if deletes != 0 && inserts != 0 {
      var k := CommonPrefix(inserted', deleted');
      prefix, inserted', deleted' := inserted'[..k], inserted'[k..], deleted'[k..];
      NoMorePrefix(inserted, deleted, k);
      var d1, i1 := deleted', inserted';
      k := CommonSuffix(inserted', deleted');
      suffix := inserted'[|inserted'| - k..];
      inserted', deleted' := inserted'[..|inserted'| - k], deleted'[..|deleted'| - k];
      NoMoreSuffix(i1, d1, k);
    }
  }

  lemma {:induction false} NoMorePrefix(a: Text, b: Text, k: nat)
    requires IsCommonPrefix(a, b, k) && forall j: nat :: IsCommonPrefix(a, b, j) ==> j <= k
    ensures forall j: nat :: IsCommonPrefix(a[k..], b[k..], j) ==> j == 0
  {
    forall j: nat | IsCommonPrefix(a[k..], b[k..], j)
      ensures j == 0
    {
      assert a[..k + j] == a[..k] + a[k..][..j] && b[..k + j] == b[..k] + b[k..][..j];
      assert IsCommonPrefix(a, b, k + j);
    }
  }

  lemma {:induction false} NoMoreSuffix(a: Text, b: Text, k: nat)
    requires IsCommonSuffix(a, b, k) && forall j: nat :: IsCommonSuffix(a, b, j) ==> j <= k
    requires forall j: nat :: IsCommonPrefix(a, b, j) ==> j == 0
    ensures NoCommonEnds(a[..|a| - k], b[..|b| - k])
  {
    var a', b' := a[..|a| - k], b[..|b| - k];
    forall j: nat | IsCommonSuffix(a', b', j)
      ensures j == 0
    {
      assert a[|a| - k - j..] == a'[|a'| - j..] + a[|a| - k..] && b[|b| - k - j..] == b'[|b'| - j..] + b[|b| - k..];
      assert IsCommonSuffix(a, b, k + j);
    }
    forall j: nat | IsCommonPrefix(a', b', j)
      ensures j == 0
    {
      assert a[..j] == a'[..j] && b[..j] == b'[..j];
      assert IsCommonPrefix(a, b, j);
    }
  }

  /** The edits from the equality before the group, if any, to the equality after it, once the group is reduced. */
  function Region(before: seq<Edit>, after: Edit, prefix: Text, suffix: Text, group: seq<Edit>): seq<Edit>
    requires |before| <= 1
  {
    Lead(before, prefix) + group + [Edit(Equal, suffix + after.text)]
  }

  function LeadStart(s: nat): nat { if s > 0 then s - 1 else 0 }

  lemma {:induction false} CloseTexts(t: seq<Edit>, s: nat, e: nat, deletes: nat, inserts: nat, deleted: Text,
                                      inserted: Text, prefix: Text, suffix: Text, deleted': Text, inserted': Text)
    requires Group(t, s, e, deletes, inserts, deleted, inserted) && deletes + inserts > 1 && e < |t| && t[e].op.Equal?
    requires deleted == prefix + deleted' + suffix && inserted == prefix + inserted' + suffix
    ensures var region := Region(t[LeadStart(s)..s], t[e], prefix, suffix,
      Reduced(deletes, inserts, deleted', inserted'));
      var t' := Splice(t, LeadStart(s), e + 1, region);
      SameTexts(t, t') && Chars(t') == Chars(t) - 2 * |prefix| - 2 * |suffix|
  {
    hide Side, Chars, Lead, Splice;
    var b := LeadStart(s);
    var before, group' := t[b..s], Reduced(deletes, inserts, deleted', inserted');
    var after' := Edit(Equal, suffix + t[e].text);
    ThreeSlices(t, b, s, e);
    ReducedTexts(deletes, inserts, deleted', inserted');
    RegionTexts(before, t[s..e], t[e], group', prefix, suffix, deleted', inserted');
    SpliceKeeps(t, b, e + 1, Region(before, t[e], prefix, suffix, group'));
    CharsSplice(t, b, e + 1, Region(before, t[e], prefix, suffix, group'));
    RegionChars(before, t[s..e], t[e]);
    RegionChars(Lead(before, prefix), group', after');
    LeadTexts(before, prefix);
  }

  /** Replaces a group of at least two edits, which ends before the equality at `e`. */
  method CloseGroup(t: seq<Edit>, s: nat, e: nat, deletes: nat, inserts: nat, deleted: Text, inserted: Text)
    returns (t': seq<Edit>, e': nat)
    requires Group(t, s, e, deletes, inserts, deleted, inserted) && deletes + inserts > 1
    requires e < |t| && t[e].op.Equal? && Merged(t[..s])
    ensures SameTexts(t, t')
    ensures 0 < e' <= |t'| && t'[e'..] == t[e + 1..]
    ensures Merged(t'[..e']) && t'[e' - 1].op.Equal?
    ensures NoLarger(Chars(t'), |t'|, t) && (Chars(t') == Chars(t) ==> t'[e' - 1] == t[e])
    ensures (forall k :: 0 <= k < e && t[k].op.Equal? ==> t[k].text != []) ==>
      forall k :: 0 <= k < e' - 1 && t'[k].op.Equal? ==> t'[k].text != []
    ensures t[e].text != [] ==> t'[e' - 1].text != []
  {
    hide Side, Chars, Merged, Lead, NoCommonEnds, Fits, Proper, SameTexts, Reduced;
    var prefix, suffix, deleted', inserted' := CommonEnds(deletes, inserts, deleted, inserted);
    var b := LeadStart(s);
    var group' := Reduced(deletes, inserts, deleted', inserted');
    var region := Region(t[b..s], t[e], prefix, suffix, group');
    t' := Splice(t, b, e + 1, region);
    e' := b + |region|;
    CloseTexts(t, s, e, deletes, inserts, deleted, inserted, prefix, suffix, deleted', inserted');
    ReducedMerged(deletes, inserts, deleted', inserted');
    CloseMerged(t, s, prefix, group', region[|region| - 1]);
    assert t'[..e'] == t[..b] + region;
    LeadTexts(t[b..s], prefix);
    assert suffix == [] ==> suffix + t[e].text == t[e].text;
    if forall k :: 0 <= k < e && t[k].op.Equal? ==> t[k].text != [] {
      CloseProper(t, s, prefix, group');
      ProperUpTo(t[..b] + Lead(t[b..s], prefix) + group', t', e');
    }
  }

  lemma {:induction false} ProperUpTo(a: seq<Edit>, t: seq<Edit>, e: nat)
    requires Proper(a) && 0 < e <= |t| && |a| == e - 1 && forall k :: 0 <= k < e - 1 ==> t[k] == a[k]
    ensures forall k :: 0 <= k < e - 1 && t[k].op.Equal? ==> t[k].text != []
  {
  }

  lemma {:induction false} ThreeSlices(t: seq<Edit>, b: nat, s: nat, e: nat)
    requires b <= s <= e < |t|
    ensures t[b..e + 1] == t[b..s] + t[s..e] + [t[e]]
  {
  }

  lemma {:induction false} ReducedMerged(deletes: nat, inserts: nat, deleted: Text, inserted: Text)
    requires deletes + inserts > 0 && (deletes > 0 && inserts > 0 ==> NoCommonEnds(inserted, deleted))
    ensures Merged(Reduced(deletes, inserts, deleted, inserted))
    ensures forall k :: 0 <= k < |Reduced(deletes, inserts, deleted, inserted)| ==>
      !Reduced(deletes, inserts, deleted, inserted)[k].op.Equal?
  {
    hide NoCommonEnds;
  }

  lemma {:induction false} LeadFits(t: seq<Edit>, s: nat, prefix: Text)
    requires s <= |t| && Merged(t[..s]) && (s > 0 ==> t[s - 1].op.Equal?)
    ensures var lead := Lead(t[if s > 0 then s - 1 else 0..s], prefix);
      && |lead| <= 1 && (lead != [] ==> lead[0].op.Equal?) && (s > 0 ==> lead != [])
      && (s > 1 ==> Fits(t[s - 2], lead[0]))
  {
    if s > 1 {
      assert Fits(t[..s][s - 2], t[..s][s - 2 + 1]);
    }
  }

  lemma {:induction false} CloseMerged(t: seq<Edit>, s: nat, prefix: Text, group: seq<Edit>, after: Edit)
    requires s <= |t| && Merged(t[..s]) && (s > 0 ==> t[s - 1].op.Equal?) && after.op.Equal?
    requires Merged(group) && group != [] && forall k :: 0 <= k < |group| ==> !group[k].op.Equal?
    ensures var b := if s > 0 then s - 1 else 0;
      Merged(t[..b] + (Lead(t[b..s], prefix) + group + [after]))
  {
    hide Merged, Fits, Lead;
    var b := if s > 0 then s - 1 else 0;
    LeadFits(t, s, prefix);
    RegionMerged(Lead(t[b..s], prefix), group, after);
    MergedPrefix(t[..s], b);
    assert t[..s][..b] == t[..b];
    MergedJoin(t[..b], Lead(t[b..s], prefix) + group + [after]);
  }

  lemma {:induction false} CloseProper(t: seq<Edit>, s: nat, prefix: Text, group: seq<Edit>)
    requires s <= |t| && (s > 0 ==> t[s - 1].op.Equal?)
    requires forall k :: 0 <= k < s && t[k].op.Equal? ==> t[k].text != []
    requires forall k :: 0 <= k < |group| ==> !group[k].op.Equal?
    ensures var b := if s > 0 then s - 1 else 0;
      Proper(t[..b] + Lead(t[b..s], prefix) + group)
  {
    var b := if s > 0 then s - 1 else 0;
    ProperJoin(t[..b], Lead(t[b..s], prefix));
    ProperJoin(t[..b] + Lead(t[b..s], prefix), group);
  }

  lemma {:induction false} ProperJoin(a: seq<Edit>, b: seq<Edit>)
    requires Proper(a) && Proper(b)
    ensures Proper(a + b)
  {
  }

  // ---------------------------------------------------------------- the merging pass

  const SENTINEL: Edit := Edit(Equal, [])

  /** No larger than `t0`, but for the sentinel at the end. */
  predicate NoLargerYet(chars: nat, length: nat, t0: seq<Edit>) {
    chars < Chars(t0) || (chars == Chars(t0) && length <= |t0| + 1)
  }

  /** The state of the pass: all before the current group is merged. */
  ghost predicate Passing(t0: seq<Edit>, t: seq<Edit>, e: nat, deletes: nat, inserts: nat, deleted: Text,
                          inserted: Text) {
    && SameTexts(t0, t) && NoLargerYet(Chars(t), |t|, t0)
    && deletes + inserts <= e <= |t|
    && Group(t, e - deletes - inserts, e, deletes, inserts, deleted, inserted) && Merged(t[..e - deletes - inserts])
    && (if e < |t| then t[|t| - 1] == SENTINEL
        else deletes + inserts == 0 && t != [] && (t[|t| - 1] == SENTINEL || NoLarger(Chars(t), |t|, t0)))
    && (Proper(t0) ==> forall k :: 0 <= k < |t| - 1 && t[k].op.Equal? ==> t[k].text != [])
  }

  lemma {:induction false} GroupGrows(t: seq<Edit>, s: nat, e: nat, deletes: nat, inserts: nat, deleted: Text,
                                      inserted: Text)
    requires Group(t, s, e, deletes, inserts, deleted, inserted) && e < |t| && !t[e].op.Equal?
    ensures t[e].op.Delete? ==> Group(t, s, e + 1, deletes + 1, inserts, deleted + t[e].text, inserted)
    ensures t[e].op.Insert? ==> Group(t, s, e + 1, deletes, inserts + 1, deleted, inserted + t[e].text)
  {
    hide Side, Chars;
    assert t[s..e + 1] == t[s..e] + [t[e]];
    TextsJoin(t[s..e], [t[e]]);
    CharsJoin(t[s..e], [t[e]]);
    OneEdit(t[e]);
    CharsOne(t[e]);
    assert deleted + [] == deleted && inserted + [] == inserted;
  }

  lemma {:induction false} EmptyGroup(t: seq<Edit>, e: nat)
    requires e <= |t| && (e > 0 ==> t[e - 1].op.Equal?)
    ensures Group(t, e, e, 0, 0, [], [])
  {
    assert t[e..e] == [];
  }

  /** An equality that follows at most one edit stays where it is. */
  lemma {:induction false} StepOver(t: seq<Edit>, s: nat, e: nat)
    requires s <= e < |t| && e <= s + 1 && t[e].op.Equal? && Merged(t[..s])
    requires (s > 0 ==> t[s - 1].op.Equal?) && (s < e ==> !t[s].op.Equal?) && (e == s ==> s == 0)
    ensures Merged(t[..e + 1])
  {
    assert Merged(t[s..e + 1]);
    assert t[..e + 1] == t[..s] + t[s..e + 1];
    MergedJoin(t[..s], t[s..e + 1]);
  }

  /** Two equalities in a row become one. */
  lemma {:induction false} JoinEqualities(t: seq<Edit>, e: nat)
    requires 0 < e < |t| && t[e - 1].op.Equal? && t[e].op.Equal? && Merged(t[..e])
    ensures var t' := Splice(t, e - 1, e + 1, [Edit(Equal, t[e - 1].text + t[e].text)]);
      SameTexts(t, t') && Chars(t') == Chars(t) && Merged(t'[..e])
  {
    hide Side, Chars, Merged;
    var c := Edit(Equal, t[e - 1].text + t[e].text);
    var t' := Splice(t, e - 1, e + 1, [c]);
    assert t[e - 1..e + 1] == [t[e - 1], t[e]];
    TwoEdits(t[e - 1], t[e]);
    OneEdit(c);
    SpliceKeeps(t, e - 1, e + 1, [c]);
    CharsSplice(t, e - 1, e + 1, [c]);
    CharsOne(c);
    CharsJoin([t[e - 1]], [t[e]]);
    CharsOne(t[e - 1]);
    CharsOne(t[e]);
    assert [t[e - 1]] + [t[e]] == [t[e - 1], t[e]];
    SameKindMerged(t, e, c);
    assert t'[..e] == t[..e - 1] + [c];
  }

  lemma {:induction false} SameKindMerged(t: seq<Edit>, e: nat, c: Edit)
    requires 0 < e <= |t| && t[e - 1].op.Equal? && c.op.Equal? && Merged(t[..e])
    ensures Merged(t[..e - 1] + [c])
  {
    MergedPrefix(t[..e], e - 1);
    assert t[..e][..e - 1] == t[..e - 1];
    if e > 1 {
      assert Fits(t[..e][e - 2], t[..e][e - 2 + 1]);
    }
    MergedJoin(t[..e - 1], [c]);
  }

  lemma {:induction false} StartPassing(t0: seq<Edit>)
    ensures Passing(t0, t0 + [SENTINEL], 0, 0, 0, [], [])
  {
    var t := t0 + [SENTINEL];
    TextsJoin(t0, [SENTINEL]);
    OneEdit(SENTINEL);
    CharsJoin(t0, [SENTINEL]);
    CharsOne(SENTINEL);
    EmptyGroup(t, 0);
    assert Old(t0) + [] == Old(t0) && New(t0) + [] == New(t0);
  }

  method MergePass(t0: seq<Edit>) returns (t: seq<Edit>)
    ensures SameTexts(t0, t) && Merged(t) && NoLarger(Chars(t), |t|, t0)
    ensures Proper(t0) ==> Proper(t)
  {
    hide Side, Chars, Merged, Group, Proper, NoLarger, NoLargerYet, SameTexts;
    t := t0 + [SENTINEL];
    var e: nat, deletes: nat, inserts: nat, deleted: Text, inserted: Text := 0, 0, 0, [], [];
    StartPassing(t0);
    while e < |t|
      invariant Passing(t0, t, e, deletes, inserts, deleted, inserted)
      decreases |t| - e
    {
      match t[e].op {
        case Insert =>
          GroupGrows(t, e - deletes - inserts, e, deletes, inserts, deleted, inserted);
          inserts, inserted, e := inserts + 1, inserted + t[e].text, e + 1;
        case Delete =>
          GroupGrows(t, e - deletes - inserts, e, deletes, inserts, deleted, inserted);
          deletes, deleted, e := deletes + 1, deleted + t[e].text, e + 1;
        case Equal =>
          t, e := AtEquality(t0, t, e, deletes, inserts, deleted, inserted);
          deletes, inserts, deleted, inserted := 0, 0, [], [];
      }
    }
    WithoutSentinel(t0, t, deletes, inserts, deleted, inserted);
    if t[|t| - 1].text == [] {
      t := t[..|t| - 1];
    }
  }

  lemma {:induction false} WithoutSentinel(t0: seq<Edit>, t: seq<Edit>, deletes: nat, inserts: nat, deleted: Text,
                                           inserted: Text)
    requires Passing(t0, t, |t|, deletes, inserts, deleted, inserted)
    ensures t != []
    ensures var r := if t[|t| - 1].text == [] then t[..|t| - 1] else t;
      SameTexts(t0, r) && Merged(r) && NoLarger(Chars(r), |r|, t0) && (Proper(t0) ==> Proper(r))
  {
    assert t[..|t|] == t;
    var last := t[|t| - 1];
    assert t == t[..|t| - 1] + [last];
    if last.text == [] {
      TextsJoin(t[..|t| - 1], [last]);
      OneEdit(last);
      CharsJoin(t[..|t| - 1], [last]);
      CharsOne(last);
      MergedPrefix(t, |t| - 1);
      assert Old(t[..|t| - 1]) + [] == Old(t[..|t| - 1]) && New(t[..|t| - 1]) + [] == New(t[..|t| - 1]);
    }
  }

  lemma {:induction false} SameTextsTwice(t0: seq<Edit>, t: seq<Edit>, t': seq<Edit>)
    requires SameTexts(t0, t) && SameTexts(t, t')
    ensures SameTexts(t0, t')
  {
  }

  /** All that is behind the equality at `e` is behind `e'` in the new list. */
  lemma {:induction false} ClosedPassing(t0: seq<Edit>, t: seq<Edit>, e: nat, deletes: nat, inserts: nat, deleted: Text,
                                         inserted: Text, t': seq<Edit>, e': nat)
    requires e < |t| && Passing(t0, t, e, deletes, inserts, deleted, inserted)
    requires SameTexts(t, t') && 0 < e' <= |t'| && t'[e'..] == t[e + 1..] && Merged(t'[..e']) && t'[e' - 1].op.Equal?
    requires NoLarger(Chars(t'), |t'|, t) && (Chars(t') == Chars(t) ==> t'[e' - 1] == t[e])
    requires (forall k :: 0 <= k < e && t[k].op.Equal? ==> t[k].text != []) ==>
      forall k :: 0 <= k < e' - 1 && t'[k].op.Equal? ==> t'[k].text != []
    requires t[e].op.Equal? && (t[e].text != [] ==> t'[e' - 1].text != [])
    ensures Passing(t0, t', e', 0, 0, [], []) && |t'| - e' < |t| - e
  {
    hide Side, Chars, Merged, SameTexts, Group;
    SameTextsTwice(t0, t, t');
    EmptyGroup(t', e');
    assert |t'[e'..]| == |t'| - e' && |t[e + 1..]| == |t| - (e + 1);
    if e' < |t'| {
      assert t'[|t'| - 1] == t'[e'..][|t'| - e' - 1] && t[|t| - 1] == t[e + 1..][|t| - e - 2];
    }
    if Proper(t0) {
      forall k | 0 <= k < |t'| - 1 && t'[k].op.Equal?
        ensures t'[k].text != []
      {
        if k >= e' {
          assert t'[k] == t'[e'..][k - e'] == t[k - e' + e + 1];
        }
      }
    }
  }

  /** Closes the group before an equality, or merges the equality into the one before it. */
  method AtEquality(ghost t0: seq<Edit>, t: seq<Edit>, e: nat, deletes: nat, inserts: nat, deleted: Text,
                    inserted: Text)
    returns (t': seq<Edit>, e': nat)
    requires e < |t| && t[e].op.Equal? && Passing(t0, t, e, deletes, inserts, deleted, inserted)
    ensures Passing(t0, t', e', 0, 0, [], []) && |t'| - e' < |t| - e
  {
    hide Side, Chars, Merged, SameTexts, Proper;
    var s := e - deletes - inserts;
    if deletes + inserts > 1 {
      t', e' := CloseGroup(t, s, e, deletes, inserts, deleted, inserted);
      ClosedPassing(t0, t, e, deletes, inserts, deleted, inserted, t', e');
    } else if e != 0 && t[e - 1].op.Equal? {
      t' := Splice(t, e - 1, e + 1, [Edit(Equal, t[e - 1].text + t[e].text)]);
      e' := e;
      JoinedPassing(t0, t, e, deletes, inserts, deleted, inserted);
    } else {
      t', e' := t, e + 1;
      StepOver(t, s, e);
      EmptyGroup(t', e');
    }
  }

  lemma {:induction false} JoinedPassing(t0: seq<Edit>, t: seq<Edit>, e: nat, deletes: nat, inserts: nat, deleted: Text,
                                         inserted: Text)
    requires 0 < e < |t| && t[e].op.Equal? && t[e - 1].op.Equal?
      && Passing(t0, t, e, deletes, inserts, deleted, inserted)
    ensures Passing(t0, Splice(t, e - 1, e + 1, [Edit(Equal, t[e - 1].text + t[e].text)]), e, 0, 0, [], [])
  {
    hide Side, Chars, Merged, SameTexts;
    var t' := Splice(t, e - 1, e + 1, [Edit(Equal, t[e - 1].text + t[e].text)]);
    if deletes + inserts > 0 {
      assert false;
    }
    JoinEqualities(t, e);
    SameTextsTwice(t0, t, t');
    EmptyGroup(t', e);
  }

  // ---------------------------------------------------------------- moving edits between equalities

  predicate EndsWith(x: Text, p: Text) { |p| <= |x| && x[|x| - |p|..] == p }

  predicate StartsWith(x: Text, p: Text) { |p| <= |x| && x[..|p|] == p }

  predicate Single(t: seq<Edit>, k: nat) { 0 < k < |t| - 1 && t[k - 1].op.Equal? && t[k + 1].op.Equal? }

  /** No single edit between two equalities could be moved sideways to swallow one of them. */
  ghost predicate Settled(t: seq<Edit>) {
    forall k: nat :: Single(t, k) ==> !EndsWith(t[k].text, t[k - 1].text) && !StartsWith(t[k].text, t[k + 1].text)
  }

  lemma {:induction false} MoveLeft(p: Text, x: Text, n: Text)
    requires EndsWith(x, p)
    ensures var x' := p + x[..|x| - |p|]; |x'| == |x| && p + x + n == x' + (p + n)
  {
    assert x == x[..|x| - |p|] + p;
  }

  lemma {:induction false} MoveRight(p: Text, x: Text, n: Text)
    requires StartsWith(x, n)
    ensures var x' := x[|n|..] + n; |x'| == |x| && p + x + n == (p + n) + x'
  {
    assert x == n + x[|n|..];
  }

  lemma {:induction false} PairCost(c: Edit, d: Edit)
    ensures Chars([c, d]) == CharsOf(c) + CharsOf(d)
  {
    CharsJoin([c], [d]);
    CharsOne(c);
    CharsOne(d);
    assert [c] + [d] == [c, d];
  }

  lemma {:induction false} TripleCost(c: Edit, d: Edit, e: Edit)
    ensures Chars([c, d, e]) == CharsOf(c) + CharsOf(d) + CharsOf(e)
  {
    PairCost(c, d);
    CharsJoin([c, d], [e]);
    CharsOne(e);
    assert [c, d] + [e] == [c, d, e];
  }

  lemma {:induction false} LeftTexts(op: Op, p: Text, x: Text, n: Text)
    requires EndsWith(x, p)
    ensures SameTexts([Edit(Equal, p), Edit(op, x), Edit(Equal, n)], [Edit(op, p + x[..|x| - |p|]), Edit(Equal, p + n)])
  {
    hide Side, EndsWith;
    LengthOfEnd(x, p);
    MoveLeft(p, x, n);
    ThreeEdits(Edit(Equal, p), Edit(op, x), Edit(Equal, n));
    TwoEdits(Edit(op, p + x[..|x| - |p|]), Edit(Equal, p + n));
    assert p + [] + n == p + n && [] + (p + n) == p + n;
  }

  lemma {:induction false} RightTexts(op: Op, p: Text, x: Text, n: Text)
    requires StartsWith(x, n)
    ensures SameTexts([Edit(Equal, p), Edit(op, x), Edit(Equal, n)], [Edit(Equal, p + n), Edit(op, x[|n|..] + n)])
  {
    hide Side, StartsWith;
    LengthOfStart(x, n);
    MoveRight(p, x, n);
    ThreeEdits(Edit(Equal, p), Edit(op, x), Edit(Equal, n));
    TwoEdits(Edit(Equal, p + n), Edit(op, x[|n|..] + n));
    assert p + [] + n == p + n && (p + n) + [] == p + n;
  }

  /** Two edits in place of three that come to the same, and cost the same. */
  lemma {:induction false} Shifted(t: seq<Edit>, e: nat, c: Edit, d: Edit)
    requires 0 < e < |t| - 1 && SameTexts([t[e - 1], t[e], t[e + 1]], [c, d])
    requires CharsOf(t[e - 1]) + CharsOf(t[e]) + CharsOf(t[e + 1]) == CharsOf(c) + CharsOf(d)
    ensures var t' := Splice(t, e - 1, e + 2, [c, d]);
      SameTexts(t, t') && Chars(t') == Chars(t)
  {
    hide Side, Chars;
    assert t[e - 1..e + 2] == [t[e - 1], t[e], t[e + 1]];
    SpliceKeeps(t, e - 1, e + 2, [c, d]);
    CharsSplice(t, e - 1, e + 2, [c, d]);
    TripleCost(t[e - 1], t[e], t[e + 1]);
    PairCost(c, d);
  }

  lemma {:induction false} KeepsProper(t: seq<Edit>, e: nat, c: Edit, d: Edit)
    requires Single(t, e)
    requires (c.op.Equal? ==> c.text == t[e - 1].text + t[e + 1].text || (|c.text| == |t[e].text| && c.op == t[e].op))
    requires (d.op.Equal? ==> d.text == t[e - 1].text + t[e + 1].text || (|d.text| == |t[e].text| && d.op == t[e].op))
    ensures Proper(t) ==> Proper(Splice(t, e - 1, e + 2, [c, d]))
  {
  }

  /** Moving an edit to the left, over the equality that it ends with. */
  lemma {:induction false} LeftKeeps(t: seq<Edit>, e: nat)
    requires Single(t, e) && EndsWith(t[e].text, t[e - 1].text)
    ensures var p, x, n := t[e - 1].text, t[e].text, t[e + 1].text;
      && |p| <= |x|
      && var t' := Splice(t, e - 1, e + 2, [Edit(t[e].op, p + x[..|x| - |p|]), Edit(Equal, p + n)]);
      SameTexts(t, t') && Chars(t') == Chars(t) && |t'| == |t| - 1 && (Proper(t) ==> Proper(t'))
  {
    hide Side, Chars, Proper, EndsWith, Splice, SameTexts;
    var p, x, n := t[e - 1].text, t[e].text, t[e + 1].text;
    LengthOfEnd(x, p);
    var c, d := Edit(t[e].op, p + x[..|x| - |p|]), Edit(Equal, p + n);
    LeftTexts(t[e].op, p, x, n);
    assert t[e - 1] == Edit(Equal, p) && t[e + 1] == Edit(Equal, n);
    Shifted(t, e, c, d);
    KeepsProper(t, e, c, d);
  }

  /** And to the right, over the equality that it starts with. */
  lemma {:induction false} RightKeeps(t: seq<Edit>, e: nat)
    requires Single(t, e) && StartsWith(t[e].text, t[e + 1].text)
    ensures var p, x, n := t[e - 1].text, t[e].text, t[e + 1].text;
      && |n| <= |x|
      && var t' := Splice(t, e - 1, e + 2, [Edit(Equal, p + n), Edit(t[e].op, x[|n|..] + n)]);
      SameTexts(t, t') && Chars(t') == Chars(t) && |t'| == |t| - 1 && (Proper(t) ==> Proper(t'))
  {
    hide Side, Chars, Proper, StartsWith, Splice, SameTexts;
    var p, x, n := t[e - 1].text, t[e].text, t[e + 1].text;
    LengthOfStart(x, n);
    var c, d := Edit(Equal, p + n), Edit(t[e].op, x[|n|..] + n);
    RightTexts(t[e].op, p, x, n);
    assert t[e - 1] == Edit(Equal, p) && t[e + 1] == Edit(Equal, n);
    Shifted(t, e, c, d);
    KeepsProper(t, e, c, d);
  }

  method ShiftPass(t0: seq<Edit>) returns (t: seq<Edit>, changed: bool)
    ensures SameTexts(t0, t) && Chars(t) == Chars(t0)
    ensures if changed then |t| < |t0| else t == t0 && Settled(t)
    ensures Proper(t0) ==> Proper(t)
  {
    hide Side, Chars, Proper, StartsWith, EndsWith, Splice;
    t, changed := t0, false;
    var e := 1;
    while e < |t| - 1
      invariant e >= 1 && SameTexts(t0, t) && Chars(t) == Chars(t0) && (Proper(t0) ==> Proper(t))
      invariant if changed then |t| < |t0| else t == t0
      invariant !changed ==> forall k: nat :: k < e && Single(t, k) ==>
        !EndsWith(t[k].text, t[k - 1].text) && !StartsWith(t[k].text, t[k + 1].text)
      decreases |t| - e
    {
      if t[e - 1].op.Equal? && t[e + 1].op.Equal? {
        var p, x, n := t[e - 1].text, t[e].text, t[e + 1].text;
        if EndsWith(x, p) {
          LeftKeeps(t, e);
          t := Splice(t, e - 1, e + 2, [Edit(t[e].op, p + x[..|x| - |p|]), Edit(Equal, p + n)]);
          changed := true;
        } else if StartsWith(x, n) {
          RightKeeps(t, e);
          t := Splice(t, e - 1, e + 2, [Edit(Equal, p + n), Edit(t[e].op, x[|n|..] + n)]);
          changed := true;
        }
      }
      e := e + 1;
    }
  }

  lemma {:induction false} LengthOfEnd(x: Text, p: Text)
    requires EndsWith(x, p)
    ensures |p| <= |x|
  {
  }

  lemma {:induction false} LengthOfStart(x: Text, p: Text)
    requires StartsWith(x, p)
    ensures |p| <= |x|
  {
  }

  /** Merges edits and equalities until nothing more can be merged. */
  method CleanupMerge(t0: seq<Edit>) returns (t: seq<Edit>)
    ensures SameTexts(t0, t) && Merged(t) && Settled(t)
    ensures NoLarger(Chars(t), |t|, t0)
    ensures Proper(t0) ==> Proper(t)
    decreases Chars(t0), |t0|
  {
    hide Side, Chars, Proper, Merged, Settled;
    var changed: bool;
    t := MergePass(t0);
    t, changed := ShiftPass(t);
    if changed {
      t := CleanupMerge(t);
    }
  }
}
