/** The recursive diff of two texts, whatever its search for a split finds and whenever its deadline expires. */
module TextDiff {
  import opened TextEdits
  import opened TextCleanup
  import opened TextSemantic
  import opened TextLines

  /** The edits lead from `t` to `n`. */
  ghost predicate Leads(r: seq<Edit>, t: Text, n: Text) { Old(r) == t && New(r) == n }

  /** There are so few different lines, not counting those at the ends of the texts, that each has a code of its own,
      also in parts of the texts. */
  ghost predicate Few(t: Text, n: Text) { |InnerLines(t) + InnerLines(n)| + 5 <= 0x10000 }

  /** Some line of a part of the text could hide the method that the line table needs. */
  ghost predicate HasName(t: Text) { exists i: nat :: OccursAt(t, HasOwn(), i) }

  lemma {:induction false} FewParts(a: Text, t: Text, b: Text, c: Text, n: Text, d: Text)
    requires Few(a + t + b, c + n + d)
    ensures Few(t, n)
  {
    hide InnerLines;
    InnerOfPart(a, t, b);
    InnerOfPart(c, n, d);
    SmallerSet(InnerLines(t) + InnerLines(n), InnerLines(a + t + b) + InnerLines(c + n + d));
  }

  lemma {:induction false} NameInWhole(a: Text, t: Text, b: Text)
    ensures HasName(t) ==> HasName(a + t + b)
  {
    hide HasOwn, OccursAt;
    if i: nat :| OccursAt(t, HasOwn(), i) {
      OccursInWhole(a, t, b, HasOwn(), i);
    }
  }

  lemma {:induction false} OccursInWhole(a: Text, t: Text, b: Text, p: Text, i: nat)
    requires OccursAt(t, p, i)
    ensures OccursAt(a + t + b, p, |a| + i)
  {
    assert (a + t + b)[|a| + i..|a| + i + |p|] == t[i..i + |p|];
  }

  lemma {:induction false} FewCodes(t: Text, n: Text)
    ensures Few(t, n) ==> CodeCount(t, n) < 0x10000
    ensures HasOwn() in Lines(t) ==> HasName(t)
  {
    hide InnerLines, HasOwn, CodeCount;
    FewLines(t, n);
    if HasOwn() in Lines(t) {
      LineOccurs(t, HasOwn());
    }
  }

  lemma {:induction false} LineOccurs(t: Text, l: Text)
    requires l in Lines(t)
    ensures exists i: nat :: OccursAt(t, l, i)
  {
    var i, j :| 0 <= i < j <= |t| && LineAt(t, i, j) && l == t[i..j];
    assert OccursAt(t, l, i);
  }

  // ---------------------------------------------------------------- half match

  datatype Half = NoHalf | Half(longA: Text, longB: Text, shortA: Text, shortB: Text, common: Text)

  /** The texts share a part that is at least half as long as the longer one. */
  ghost predicate IsHalf(h: Half, long: Text, short: Text) {
    h.Half? ==>
      && long == h.longA + h.common + h.longB && short == h.shortA + h.common + h.shortB
      && 2 * |h.common| >= |long|
  }

  lemma {:induction false} Extends(long: Text, short: Text, i: nat, j: nat, suffix: nat, prefix: nat)
    requires i <= |long| && j <= |short|
    requires IsCommonPrefix(long[i..], short[j..], prefix) && IsCommonSuffix(long[..i], short[..j], suffix)
    ensures var common := short[j - suffix..j] + short[j..j + prefix];
      && |common| == suffix + prefix
      && long == long[..i - suffix] + common + long[i + prefix..]
      && short == short[..j - suffix] + common + short[j + prefix..]
  {
    assert long[i..i + prefix] == short[j..j + prefix] by {
      assert long[i..][..prefix] == long[i..i + prefix] && short[j..][..prefix] == short[j..j + prefix];
    }
    assert long[i - suffix..i] == short[j - suffix..j] by {
      assert long[..i][i - suffix..] == long[i - suffix..i] && short[..j][j - suffix..] == short[j - suffix..j];
    }
    assert long == long[..i - suffix] + long[i - suffix..i] + long[i..i + prefix] + long[i + prefix..];
    assert short == short[..j - suffix] + short[j - suffix..j] + short[j..j + prefix] + short[j + prefix..];
    Regroup(long[..i - suffix], long[i - suffix..i], long[i..i + prefix]);
    Regroup(short[..j - suffix], short[j - suffix..j], short[j..j + prefix]);
  }

  /** Where the quarter of the longer text that starts at `i` occurs in the shorter one at `j`, `a` characters before it
      and `b` from there on are the same in both. */
  ghost predicate Around(long: Text, short: Text, i: nat, j: nat, a: nat, b: nat) {
    && i + |long| / 4 <= |long| && OccursAt(short, long[i..i + |long| / 4], j)
    && IsCommonSuffix(long[..i], short[..j], a) && IsCommonPrefix(long[i..], short[j..], b)
  }

  /** The common part has been found around the quarter at `i`, and none around it is longer. */
  ghost predicate BestAround(long: Text, short: Text, i: nat, k: nat) {
    SomeAround(long, short, i, k) && NoneLonger(long, short, i, k)
  }

  ghost predicate SomeAround(long: Text, short: Text, i: nat, k: nat) {
    exists j: nat, a: nat, b: nat :: Around(long, short, i, j, a, b) && k == a + b
  }

  ghost predicate NoneLonger(long: Text, short: Text, i: nat, k: nat) {
    forall j: nat, a: nat, b: nat :: Around(long, short, i, j, a, b) ==> a + b <= k
  }

  /** Up to place `j` of the shorter text, no common part around the quarter at `i` is longer than `k`. */
  ghost predicate NoneLongerBefore(long: Text, short: Text, i: nat, k: nat, to: int) {
    forall j: nat, a: nat, b: nat :: j < to && Around(long, short, i, j, a, b) ==> a + b <= k
  }

  lemma {:induction false} AroundBounds(long: Text, short: Text, i: nat, j: nat, suffix: nat, prefix: nat)
    requires i <= |long| && j <= |short|
    requires forall a: nat :: IsCommonSuffix(long[..i], short[..j], a) ==> a <= suffix
    requires forall b: nat :: IsCommonPrefix(long[i..], short[j..], b) ==> b <= prefix
    ensures forall a: nat, b: nat :: Around(long, short, i, j, a, b) ==> a + b <= suffix + prefix
  {
    hide IsCommonSuffix, IsCommonPrefix, OccursAt;
  }

  lemma {:induction false} NoneBetween(long: Text, short: Text, i: nat, k: nat, j: nat, next: int)
    requires i + |long| / 4 <= |long| && NoneLongerBefore(long, short, i, k, j)
    requires forall a: nat, b: nat :: Around(long, short, i, j, a, b) ==> a + b <= k
    requires next == IndexOf(short, long[i..i + |long| / 4], j + 1)
    ensures if next == -1 then NoneLonger(long, short, i, k) else NoneLongerBefore(long, short, i, k, next)
  {
    hide IsCommonSuffix, IsCommonPrefix, OccursAt;
  }

  lemma {:induction false} NoneAtFirst(long: Text, short: Text, i: nat, first: int)
    requires i + |long| / 4 <= |long| && first == IndexOf(short, long[i..i + |long| / 4], 0)
    ensures if first == -1 then NoneLonger(long, short, i, 0) else NoneLongerBefore(long, short, i, 0, first)
  {
    hide IsCommonSuffix, IsCommonPrefix, OccursAt;
  }

  lemma {:induction false} LongerBound(long: Text, short: Text, i: nat, k: nat, k': nat, j: int)
    requires NoneLongerBefore(long, short, i, k, j) && k <= k'
    ensures NoneLongerBefore(long, short, i, k', j)
  {
    hide Around;
  }

  /** The best common part around a quarter of the longer text that starts at `i`. */
  method HalfMatchAt(long: Text, short: Text, i: nat) returns (h: Half)
    requires 4 <= |long| && i + |long| / 4 <= |long|
    ensures IsHalf(h, long, short)
    ensures if h.Half? then BestAround(long, short, i, |h.common|)
            else forall j: nat, a: nat, b: nat :: Around(long, short, i, j, a, b) ==> 2 * (a + b) < |long|
  {
    hide IsCommonSuffix, IsCommonPrefix, Around, NoneLongerBefore, SomeAround, NoneLonger;
    var seed := long[i..i + |long| / 4];
    var best := Half(long, [], short, [], []);
    var j := IndexOf(short, seed, 0);
    NoneAtFirst(long, short, i, j);
    while j != -1
      invariant -1 <= j <= |short| && (j != -1 ==> OccursAt(short, seed, j))
      invariant best.Half?
      invariant long == best.longA + best.common + best.longB && short == best.shortA + best.common + best.shortB
      invariant best.common != [] ==> SomeAround(long, short, i, |best.common|)
      invariant if j == -1 then NoneLonger(long, short, i, |best.common|)
                else NoneLongerBefore(long, short, i, |best.common|, j)
      decreases if j == -1 then 0 else |short| + 1 - j
    {
      var prefix := CommonPrefix(long[i..], short[j..]);
      var suffix := CommonSuffix(long[..i], short[..j]);
      AroundIs(long, short, i, j, suffix, prefix);
      AroundBounds(long, short, i, j, suffix, prefix);
      assert SomeAround(long, short, i, suffix + prefix) by { FoundAround(long, short, i, j, suffix, prefix); }
      if |best.common| < suffix + prefix {
        Extends(long, short, i, j, suffix, prefix);
        LongerBound(long, short, i, |best.common|, suffix + prefix, j);
        best := Half(long[..i - suffix], long[i + prefix..], short[..j - suffix], short[j + prefix..],
                     short[j - suffix..j] + short[j..j + prefix]);
      }
      var next := IndexOf(short, seed, j + 1);
      NoneBetween(long, short, i, |best.common|, j, next);
      j := next;
    }
    if 2 * |best.common| >= |long| {
      return best;
    }
    NoneEnough(long, short, i, |best.common|);
    return NoHalf;
  }

  lemma {:induction false} FoundAround(long: Text, short: Text, i: nat, j: nat, a: nat, b: nat)
    requires Around(long, short, i, j, a, b)
    ensures SomeAround(long, short, i, a + b)
  {
  }

  lemma {:induction false} NoneEnough(long: Text, short: Text, i: nat, k: nat)
    requires NoneLonger(long, short, i, k) && 2 * k < |long|
    ensures forall j: nat, a: nat, b: nat :: Around(long, short, i, j, a, b) ==> 2 * (a + b) < |long|
  {
    hide Around;
  }

  lemma {:induction false} AroundIs(long: Text, short: Text, i: nat, j: nat, suffix: nat, prefix: nat)
    requires i + |long| / 4 <= |long| && OccursAt(short, long[i..i + |long| / 4], j)
    requires IsCommonSuffix(long[..i], short[..j], suffix) && IsCommonPrefix(long[i..], short[j..], prefix)
    ensures Around(long, short, i, j, suffix, prefix)
    ensures suffix <= i && suffix <= j && i + prefix <= |long| && j + prefix <= |short|
  {
  }

  function CeilDiv(a: nat, b: nat): nat
    requires b > 0
  {
    (a + b - 1) / b
  }

  /** The texts are long enough, and near enough in length, for a half match. */
  predicate Comparable(long: Text, short: Text) { |long| >= 4 && 2 * |short| >= |long| }

  /** Around its second or third quarter, the longer text shares `k` characters with the shorter one. */
  ghost predicate Shares(long: Text, short: Text, k: nat) {
    exists i: nat, j: nat, a: nat, b: nat ::
      (i == CeilDiv(|long|, 4) || i == CeilDiv(|long|, 2)) && Around(long, short, i, j, a, b) && k == a + b
  }

  function Longer(text1: Text, text2: Text): Text { if |text1| > |text2| then text1 else text2 }

  function Shorter(text1: Text, text2: Text): Text { if |text1| > |text2| then text2 else text1 }

  /** A common part of at least half the longer text, if there is one around its second or third quarter, and then the
      longest of these. The parts of the first text come first. */
  method HalfMatch(text1: Text, text2: Text, timeout: bool) returns (h: Half)
    ensures h.Half? ==> text1 == h.longA + h.common + h.longB && text2 == h.shortA + h.common + h.shortB
    ensures h.Half? ==> |h.common| >= 2 && 2 * |h.common| >= |text1| && 2 * |h.common| >= |text2|
    ensures var long, short := Longer(text1, text2), Shorter(text1, text2);
      && (h.Half? <==> timeout && Comparable(long, short)
                       && exists k: nat :: Shares(long, short, k) && 2 * k >= |long|)
      && (h.Half? ==> Shares(long, short, |h.common|) && forall k: nat :: Shares(long, short, k) ==> k <= |h.common|)
  {
    hide Around;
    if !timeout {
      return NoHalf;
    }
    var long, short := if |text1| > |text2| then text1 else text2, if |text1| > |text2| then text2 else text1;
    if |long| < 4 || 2 * |short| < |long| {
      return NoHalf;
    }
    var h1 := HalfMatchAt(long, short, CeilDiv(|long|, 4));
    var h2 := HalfMatchAt(long, short, CeilDiv(|long|, 2));
    if h1.NoHalf? && h2.NoHalf? {
      assert forall k: nat :: Shares(long, short, k) ==> 2 * k < |long|;
      return NoHalf;
    }
    h := if h2.NoHalf? then h1 else if h1.NoHalf? then h2 else if |h1.common| > |h2.common| then h1 else h2;
    assert Shares(long, short, |h.common|) && 2 * |h.common| >= |long|;
    if |text1| <= |text2| {
      h := Half(h.shortA, h.shortB, h.longA, h.longB, h.common);
    }
  }

  // ---------------------------------------------------------------- pieces of the result

  lemma {:induction false} LeadsPair(t: Text, n: Text)
    ensures Leads([Edit(Delete, t), Edit(Insert, n)], t, n) && Proper([Edit(Delete, t), Edit(Insert, n)])
  {
    TwoEdits(Edit(Delete, t), Edit(Insert, n));
    assert t + [] == t && [] + n == n;
  }

  lemma {:induction false} LeadsJoin(a: seq<Edit>, b: seq<Edit>, t: Text, n: Text, t': Text, n': Text)
    requires Leads(a, t, n) && Leads(b, t', n')
    ensures Leads(a + b, t + t', n + n')
  {
    TextsJoin(a, b);
  }

  lemma {:induction false} LeadsCommon(a: seq<Edit>, t: Text, n: Text, p: Text, q: Text)
    requires Leads(a, t, n)
    ensures Leads(EqualityOrNone(p) + a + EqualityOrNone(q), p + t + q, p + n + q)
    ensures Proper(a) ==> Proper(EqualityOrNone(p) + a + EqualityOrNone(q))
  {
    hide Side;
    EqualityOrNoneTexts(p);
    EqualityOrNoneTexts(q);
    TextsJoin(EqualityOrNone(p) + a, EqualityOrNone(q));
    TextsJoin(EqualityOrNone(p), a);
    if Proper(a) {
      ProperJoin(EqualityOrNone(p), a);
      ProperJoin(EqualityOrNone(p) + a, EqualityOrNone(q));
    }
  }

  /** The shorter text is part of the longer one. */
  lemma {:induction false} Contained(before: Text, mid: Text, after: Text)
    requires mid != []
    ensures var long := before + mid + after;
      && Leads([Edit(Insert, before), Edit(Equal, mid), Edit(Insert, after)], mid, long)
      && Leads([Edit(Delete, before), Edit(Equal, mid), Edit(Delete, after)], long, mid)
  {
    hide Side;
    ThreeEdits(Edit(Insert, before), Edit(Equal, mid), Edit(Insert, after));
    ThreeEdits(Edit(Delete, before), Edit(Equal, mid), Edit(Delete, after));
    assert [] + mid + [] == mid;
  }

  /** A part of an edit list's text comes from its sides. */
  lemma {:induction false} UnitsOfSide(t: seq<Edit>, k: nat, skip: Op, c: Unit)
    requires k < |t| && t[k].op != skip && c in t[k].text
    ensures c in Side(t, skip)
  {
    if k < |t| - 1 {
      UnitsOfSide(t[..|t| - 1], k, skip, c);
    }
  }

  lemma {:induction false} DecodeNonempty(chars: Text, lines: seq<Text>)
    requires chars != [] && forall c :: c in chars ==> 0 < c < |lines| && lines[c] != []
    ensures Decode(chars, lines) != []
  {
    var last := chars[|chars| - 1];
    assert last in chars;
  }

  /** Decoding a list of edits between coded texts gives one between the texts themselves. */
  lemma {:induction false} DecodeLeads(t: seq<Edit>, lines: seq<Text>, chars1: Text, chars2: Text, text1: Text,
                                       text2: Text, places1: seq<nat>, places2: seq<nat>)
    requires Leads(t, chars1, chars2) && Proper(t) && |lines| <= 0x10000
    requires Codes(chars1, text1, places1, lines) && Codes(chars2, text2, places2, lines)
    requires forall k :: 0 < k < |lines| ==> lines[k] != []
    ensures Leads(DecodeEdits(t, lines), text1, text2) && Proper(DecodeEdits(t, lines))
  {
    hide Side, Joined;
    DecodeSide(t, lines, Insert);
    DecodeSide(t, lines, Delete);
    DecodeCodes(chars1, text1, places1, lines);
    DecodeCodes(chars2, text2, places2, lines);
    forall k | 0 <= k < |t| && t[k].op.Equal?
      ensures Decode(t[k].text, lines) != []
    {
      forall c | c in t[k].text
        ensures 0 < c < |lines| && lines[c] != []
      {
        UnitsOfSide(t, k, Insert, c);
        CodeInTable(chars1, text1, places1, lines, c);
      }
      DecodeNonempty(t[k].text, lines);
    }
  }

  lemma {:induction false} CodeInTable(chars: Text, text: Text, places: seq<nat>, lines: seq<Text>, c: Unit)
    requires Codes(chars, text, places, lines) && c in chars && |lines| <= 0x10000
    ensures 0 < c < |lines|
  {
    var k :| 0 <= k < |chars| && chars[k] == c;
    assert c as int == places[k];
  }

  // ---------------------------------------------------------------- how many characters are edited

  lemma {:induction false} CharsBounds(t: seq<Edit>)
    ensures |Old(t)| - |New(t)| <= Chars(t) && |New(t)| - |Old(t)| <= Chars(t) <= |Old(t)| + |New(t)|
  {
    if t != [] {
      CharsBounds(t[..|t| - 1]);
    }
  }

  /** One of the texts is part of the other one. */
  ghost predicate PartOf(t: Text, n: Text) { exists i: nat :: OccursAt(t, n, i) || OccursAt(n, t, i) }

  function Apart(t: Text, n: Text): nat { if |t| > |n| then |t| - |n| else |n| - |t| }

  lemma {:induction false} PartTrimmed(p: Text, t: Text, n: Text, s: Text)
    requires PartOf(p + t + s, p + n + s)
    ensures PartOf(t, n) && Apart(t, n) == Apart(p + t + s, p + n + s)
  {
    var whole, whole' := p + t + s, p + n + s;
    var i: nat :| OccursAt(whole, whole', i) || OccursAt(whole', whole, i);
    if OccursAt(whole, whole', i) {
      OccursTrimmed(p, t, n, s, i);
    } else {
      OccursTrimmed(p, n, t, s, i);
    }
  }

  lemma {:induction false} OccursTrimmed(p: Text, t: Text, n: Text, s: Text, i: nat)
    requires OccursAt(p + t + s, p + n + s, i)
    ensures OccursAt(t, n, i)
  {
    var whole, part := p + t + s, p + n + s;
    assert i + |n| <= |t|;
    forall k | 0 <= k < |n|
      ensures t[i + k] == n[k]
    {
      assert part[|p| + k] == n[k];
      assert whole[i..i + |part|][|p| + k] == part[|p| + k];
      assert whole[|p| + (i + k)] == t[i + k];
    }
    assert t[i..i + |n|] == n;
  }

  /** Merging keeps to what the rest allows. */
  lemma {:induction false} MergedChars(r0: seq<Edit>, r: seq<Edit>, p: Text, s: Text, r1: seq<Edit>)
    requires r0 == EqualityOrNone(p) + r1 + EqualityOrNone(s) && NoLarger(Chars(r), |r|, r0)
    ensures Chars(r) <= Chars(r1)
  {
    hide Chars;
    EqualityChars(p);
    EqualityChars(s);
    CharsJoin(EqualityOrNone(p) + r1, EqualityOrNone(s));
    CharsJoin(EqualityOrNone(p), r1);
  }

  lemma {:induction false} EqualityChars(p: Text)
    ensures Chars(EqualityOrNone(p)) == 0
  {
    if p != [] {
      CharsOne(Edit(Equal, p));
    }
  }

  /** What is left when the longest common prefix, and then the longest common suffix, have been cut off is no longer
      than with any other common prefix or suffix. */
  lemma {:induction false} TrimmedMost(t: Text, n: Text, p: nat, s: nat, k: nat)
    requires p + s <= |t| && p + s <= |n|
    requires forall j: nat :: IsCommonPrefix(t, n, j) ==> j <= p
    requires forall j: nat :: IsCommonSuffix(t[p..], n[p..], j) ==> j <= s
    ensures IsCommonPrefix(t, n, k) || IsCommonSuffix(t, n, k) ==> k <= p + s
  {
    if IsCommonSuffix(t, n, k) {
      var j := Min(k, Min(|t|, |n|) - p);
      ShorterSuffix(t, n, k, j);
      assert t[p..][|t| - p - j..] == t[|t| - j..] && n[p..][|n| - p - j..] == n[|n| - j..];
      assert IsCommonSuffix(t[p..], n[p..], j);
    }
  }

  // ---------------------------------------------------------------- the recursion

  /** The diff of two texts. `fuel` bounds how many splits deep the search gets before the deadline; `timeout` says
      whether there is a deadline, and `fails` that the code throws or never returns. */
  method DiffMain(t: Text, n: Text, checkLines: bool, timeout: bool, fuel: nat, score: (Text, Text) -> int)
    returns (r: seq<Edit>, fails: bool)
    ensures (checkLines ==> Few(t, n)) && !fails ==> Leads(r, t, n)
    ensures fails ==> checkLines && (Few(t, n) ==> HasName(t))
    ensures !fails ==> Merged(r) && Settled(r)
    ensures !checkLines ==> Proper(r)
    ensures PartOf(t, n) ==> !fails && Leads(r, t, n) && Chars(r) == Apart(t, n)
    ensures (checkLines ==> Few(t, n)) && !fails ==>
      forall k: nat :: IsCommonPrefix(t, n, k) || IsCommonSuffix(t, n, k) ==> Chars(r) <= |t| + |n| - 2 * k
    decreases fuel, checkLines, |t| + |n|, 3
  {
    hide Side, Few, HasName, Proper, Merged, Settled, Chars, PartOf, IsCommonPrefix, IsCommonSuffix;
    fails := false;
    if t == n {
      r := EqualityOrNone(t);
      EqualityOrNoneTexts(t);
      EqualityChars(t);
      AllCommonBounds(t, n);
      OneIsMerged(r);
      return;
    }
    var k := CommonPrefix(t, n);
    CommonBounds(t, n, k);
    var prefix := t[..k];
    var t1, n1 := t[k..], n[k..];
    ghost var p := k;
    k := CommonSuffix(t1, n1);
    CommonBounds(t1, n1, k);
    TrimmedBoth(t, n, p, k);
    var suffix := t1[|t1| - k..];
    var t2, n2 := t1[..|t1| - k], n1[..|n1| - k];
    assert t == prefix + t2 + suffix && n == prefix + n2 + suffix;
    ghost var few := checkLines ==> Few(t, n);
    if Few(t, n) {
      FewParts(prefix, t2, suffix, prefix, n2, suffix);
    }
    NameInWhole(prefix, t2, suffix);
    if PartOf(t, n) {
      PartTrimmed(prefix, t2, n2, suffix);
    }
    r, fails := Compute(t2, n2, checkLines, timeout, fuel, score);
    if fails {
      return;
    }
    ghost var r1 := r;
    r := EqualityOrNone(prefix) + r + EqualityOrNone(suffix);
    ghost var r0 := r;
    if few || PartOf(t, n) {
      LeadsCommon(r1, t2, n2, prefix, suffix);
      CharsBounds(r1);
      forall j: nat | IsCommonPrefix(t, n, j) || IsCommonSuffix(t, n, j)
        ensures j <= p + k
      {
        TrimmedMost(t, n, p, k, j);
      }
    }
    if !checkLines {
      EqualityOrNoneTexts(prefix);
      EqualityOrNoneTexts(suffix);
      ProperJoin(EqualityOrNone(prefix), r1);
      ProperJoin(EqualityOrNone(prefix) + r1, EqualityOrNone(suffix));
    }
    r := CleanupMerge(r);
    MergedChars(r0, r, prefix, suffix, r1);
    CharsBounds(r);
  }

  lemma {:induction false} AllCommonBounds(t: Text, n: Text)
    ensures forall k: nat :: IsCommonPrefix(t, n, k) || IsCommonSuffix(t, n, k) ==> k <= |t| && k <= |n|
    ensures t == n ==> Apart(t, n) == 0
  {
  }

  /** A text is its common prefix and suffix and what is between them. */
  lemma {:induction false} TrimmedBoth(t: Text, n: Text, p: nat, s: nat)
    requires IsCommonPrefix(t, n, p) && IsCommonSuffix(t[p..], n[p..], s)
    ensures p + s <= |t| && p + s <= |n|
    ensures n[..p] == t[..p] && n[p..][|n| - p - s..] == t[p..][|t| - p - s..]
  {
  }

  lemma {:induction false} OneIsMerged(r: seq<Edit>)
    requires |r| <= 1
    ensures Merged(r) && Settled(r)
  {
  }

  lemma {:induction false} AroundFound(long: Text, short: Text, i: nat)
    requires OccursAt(long, short, i)
    ensures i + |short| <= |long| && long == long[..i] + short + long[i + |short|..]
  {
  }

  lemma {:induction false} NotPart(long: Text, short: Text)
    requires IndexOf(long, short, 0) == -1 && |short| <= |long|
    ensures !PartOf(long, short) && !PartOf(short, long)
  {
    forall i: nat
      ensures !OccursAt(long, short, i) && !OccursAt(short, long, i)
    {
      LongInShort(long, short, i);
    }
  }

  lemma {:induction false} LongInShort(long: Text, short: Text, i: nat)
    requires |short| <= |long|
    ensures OccursAt(short, long, i) ==> OccursAt(long, short, 0)
  {
  }

  /** The diff of two texts without a common prefix or suffix. */
  method Compute(t: Text, n: Text, checkLines: bool, timeout: bool, fuel: nat, score: (Text, Text) -> int)
    returns (r: seq<Edit>, fails: bool)
    ensures (checkLines ==> Few(t, n)) && !fails ==> Leads(r, t, n)
    ensures fails ==> checkLines && (Few(t, n) ==> HasName(t))
    ensures !checkLines ==> Proper(r)
    ensures PartOf(t, n) ==> !fails && Leads(r, t, n) && Chars(r) == Apart(t, n)
    decreases fuel, checkLines, |t| + |n|, 2
  {
    hide Side, Few, HasName, OccursAt, Chars, PartOf;
    fails := false;
    LeadsPair(t, n);
    if |t| == 0 {
      r := [Edit(Insert, n)];
      OneEdit(r[0]);
      CharsOne(r[0]);
      return;
    }
    if |n| == 0 {
      r := [Edit(Delete, t)];
      OneEdit(r[0]);
      CharsOne(r[0]);
      return;
    }
    var long, short := if |t| > |n| then t else n, if |t| > |n| then n else t;
    var i := IndexOf(long, short, 0);
    if i != -1 {
      AroundFound(long, short, i);
      var op := if |t| > |n| then Delete else Insert;
      r := [Edit(op, long[..i]), Edit(Equal, short), Edit(op, long[i + |short|..])];
      Contained(long[..i], short, long[i + |short|..]);
      TripleCost(r[0], r[1], r[2]);
      return;
    }
    NotPart(long, short);
    if |short| == 1 {
      r := [Edit(Delete, t), Edit(Insert, n)];
      return;
    }
    var h := HalfMatch(t, n, timeout);
    if h.Half? {
      r, fails := AroundHalf(t, n, h, checkLines, timeout, fuel, score);
    } else if checkLines && |t| > 100 && |n| > 100 {
      FewCodes(t, n);
      r, fails := LineMode(t, n, timeout, fuel, score);
    } else {
      r := Bisect(t, n, timeout, fuel, score);
    }
  }

  method AroundHalf(t: Text, n: Text, h: Half, checkLines: bool, timeout: bool, fuel: nat, score: (Text, Text) -> int)
    returns (r: seq<Edit>, fails: bool)
    requires h.Half? && t == h.longA + h.common + h.longB && n == h.shortA + h.common + h.shortB && |h.common| > 0
    ensures (checkLines ==> Few(t, n)) && !fails ==> Leads(r, t, n)
    ensures fails ==> checkLines && (Few(t, n) ==> HasName(t))
    ensures !checkLines ==> Proper(r)
    decreases fuel, checkLines, |t| + |n|, 1
  {
    hide Side, Few, HasName;
    ghost var few := checkLines ==> Few(t, n);
    assert t == [] + h.longA + (h.common + h.longB) && n == [] + h.shortA + (h.common + h.shortB);
    assert t == (h.longA + h.common) + h.longB + [] && n == (h.shortA + h.common) + h.shortB + [];
    if Few(t, n) {
      FewParts([], h.longA, h.common + h.longB, [], h.shortA, h.common + h.shortB);
      FewParts(h.longA + h.common, h.longB, [], h.shortA + h.common, h.shortB, []);
    }
    NameInWhole([], h.longA, h.common + h.longB);
    NameInWhole(h.longA + h.common, h.longB, []);
    var a, b;
    a, fails := DiffMain(h.longA, h.shortA, checkLines, timeout, fuel, score);
    if fails {
      return [], true;
    }
    b, fails := DiffMain(h.longB, h.shortB, checkLines, timeout, fuel, score);
    if fails {
      return [], true;
    }
    var mid := [Edit(Equal, h.common)];
    r := a + mid + b;
    if few {
      OneEdit(mid[0]);
      LeadsJoin(a, mid, h.longA, h.shortA, h.common, h.common);
      LeadsJoin(a + mid, b, h.longA + h.common, h.shortA + h.common, h.longB, h.shortB);
    }
  }

  /** The search for a split from both ends, which may find any split or run out of time. */
  method Bisect(t: Text, n: Text, timeout: bool, fuel: nat, score: (Text, Text) -> int) returns (r: seq<Edit>)
    ensures Leads(r, t, n) && Proper(r)
    decreases fuel, false, |t| + |n|, 0
  {
    hide Side;
    var found: bool := *;
    if fuel > 0 && found {
      var x: nat :| x <= |t|;
      var y: nat :| y <= |n|;
      var a, b;
      var fails: bool;
      a, fails := DiffMain(t[..x], n[..y], false, timeout, fuel - 1, score);
      b, fails := DiffMain(t[x..], n[y..], false, timeout, fuel - 1, score);
      r := a + b;
      LeadsJoin(a, b, t[..x], n[..y], t[x..], n[y..]);
      assert t[..x] + t[x..] == t && n[..y] + n[y..] == n;
      ProperJoin(a, b);
    } else {
      r := [Edit(Delete, t), Edit(Insert, n)];
      LeadsPair(t, n);
    }
  }

  /** A diff by lines, in which blocks of changed lines are compared again by characters. If there is a code for every
      line, it fails only where the table of lines does. */
  method LineMode(t: Text, n: Text, timeout: bool, fuel: nat, score: (Text, Text) -> int)
    returns (r: seq<Edit>, fails: bool)
    ensures n != [] && HasOwn() in Lines(t) ==> fails
    ensures CodeCount(t, n) < 0x10000 ==> (fails <==> n != [] && HasOwn() in Lines(t)) && (!fails ==> Leads(r, t, n))
    decreases fuel, true, |t| + |n|, 1
  {
    hide Side, Proper, Codes, Lines, HasOwn, CodeCount;
    var threw, chars1, chars2, lines, places1, places2 := LinesToChars(t, n);
    if threw {
      return [], true;
    }
    r := Bisect(chars1, chars2, timeout, fuel, score);
    ghost var coded := r;
    if CodeCount(t, n) < 0x10000 {
      DecodeLeads(coded, lines, chars1, chars2, t, n, places1, places2);
    }
    r := DecodeEdits(r, lines);
    ghost var undone, merged, slid, steps;
    r, fails, undone, merged, slid, steps := CleanupSemantic(r, score);
    if !fails {
      r := DiffBlocks(r, timeout, fuel, score);
    }
  }

  /** Compares deletions and insertions between two equalities again, by characters. */
  method DiffBlocks(t0: seq<Edit>, timeout: bool, fuel: nat, score: (Text, Text) -> int) returns (t: seq<Edit>)
    ensures SameTexts(t0, t)
    decreases fuel, true, 0, 0
  {
    hide Side, Chars, Proper, SameTexts, Merged, Settled, Group;
    t := t0 + [SENTINEL];
    var e: nat, deletes: nat, inserts: nat, deleted: Text, inserted: Text := 0, 0, 0, [], [];
    WithSentinel(t0);
    EmptyGroup(t, 0);
    while e < |t|
      invariant deletes + inserts <= e <= |t| && SameTexts(t0, t) && t != [] && t[|t| - 1] == SENTINEL
      invariant Group(t, e - deletes - inserts, e, deletes, inserts, deleted, inserted)
      decreases |t| - e
    {
      match t[e].op {
        case Insert =>
          GroupGrows(t, e - deletes - inserts, e, deletes, inserts, deleted, inserted);
          inserts, inserted := inserts + 1, inserted + t[e].text;
        case Delete =>
          GroupGrows(t, e - deletes - inserts, e, deletes, inserts, deleted, inserted);
          deletes, deleted := deletes + 1, deleted + t[e].text;
        case Equal =>
          if deletes >= 1 && inserts >= 1 {
            var start := e - deletes - inserts;
            var sub, fails := DiffMain(deleted, inserted, false, timeout, fuel, score);
            BlockReplaced(t0, t, start, e, deletes, inserts, deleted, inserted, sub);
            t := Splice(t, start, e, sub);
            e := start + |sub|;
          }
          EmptyGroup(t, e + 1);
          deletes, inserts, deleted, inserted := 0, 0, [], [];
      }
      e := e + 1;
    }
    WithSentinel(t[..|t| - 1]);
    assert t[..|t| - 1] + [SENTINEL] == t;
    ghost var t1 := t;
    t := t[..|t| - 1];
    SentinelGone(t0, t1, t);
  }

  lemma {:induction false} WithSentinel(t: seq<Edit>)
    ensures SameTexts(t, t + [SENTINEL])
  {
    TextsJoin(t, [SENTINEL]);
    OneEdit(SENTINEL);
    assert Old(t) + [] == Old(t) && New(t) + [] == New(t);
  }

  lemma {:induction false} SentinelGone(t0: seq<Edit>, t1: seq<Edit>, t: seq<Edit>)
    requires SameTexts(t0, t1) && SameTexts(t, t1)
    ensures SameTexts(t0, t)
  {
  }

  lemma {:induction false} BlockReplaced(t0: seq<Edit>, t: seq<Edit>, s: nat, e: nat, deletes: nat, inserts: nat,
                                         deleted: Text, inserted: Text, sub: seq<Edit>)
    requires SameTexts(t0, t) && Group(t, s, e, deletes, inserts, deleted, inserted) && e < |t|
      && Leads(sub, deleted, inserted)
    ensures var t' := Splice(t, s, e, sub);
      SameTexts(t0, t') && t'[|t'| - 1] == t[|t| - 1] && t'[s + |sub|] == t[e]
  {
    hide Side;
    SpliceKeeps(t, s, e, sub);
  }
}
