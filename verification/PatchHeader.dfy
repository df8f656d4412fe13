/** What the lines in front of the hunks of a patch do, if one of them looks like the start of a hunk: everything from
    there on is parsed, and applied first. */
module PatchHeader {
  import opened Wrappers
  import opened Text
  import opened UnifiedFormat
  import opened PatchApply
  import opened PatchSections

  // ---------------------------------------------------------------- parsing two lists of lines

  lemma {:induction false} AddToFront(a: seq<Hunk>, b: seq<Hunk>, removed: seq<string>, added: seq<string>)
    requires a != []
    ensures AddTo(a + b, removed, added) == AddTo(a, removed, added) + b
  {
  }

  lemma {:induction false} ParseLineFront(p: Parsed, q: Parsed, prev: string, line: string)
    requires p.hunks != []
    ensures var r := ParseLine(p, prev, line);
      && r.hunks != []
      && ParseLine(Both(p, q), prev, line) == Both(r, q)
  {
    hide FindHeader, AddTo;
    if StartsWith(line, '@') {
      var h := [Hunk(FindHeader(line, 0), [], [])];
      assert h + (p.hunks + q.hunks) == h + p.hunks + q.hunks;
    } else if StartsWith(line, '+') {
      AddToFront(p.hunks, q.hunks, [], [line[1..]]);
    } else if StartsWith(line, '-') {
      AddToFront(p.hunks, q.hunks, [line[1..]], []);
    } else if StartsWith(line, ' ') {
      AddToFront(p.hunks, q.hunks, [line[1..]], [line[1..]]);
    }
  }

  /** The hunks of `p`, which come later and so in front of those of `q`, and the notes of both. */
  function Both(p: Parsed, q: Parsed): Parsed {
    Parsed(p.hunks + q.hunks, p.remEOFNL || q.remEOFNL, p.addEOFNL || q.addEOFNL)
  }

  lemma {:induction false} FirstLine(p: Parsed, prev: string, line: string)
    requires IsHunkLine(line)
    ensures ParseLine(Parsed([], false, false), "", line).hunks != []
    ensures ParseLine(p, prev, line) == Both(ParseLine(Parsed([], false, false), "", line), p)
  {
    hide FindHeader;
    var h := [Hunk(FindHeader(line, 0), [], [])];
    assert h + [] == h;
  }

  lemma {:induction false} ParseLast(lines: seq<string>)
    requires lines != []
    ensures var init := lines[..|lines| - 1];
      Parse(lines) == ParseLine(Parse(init), LastOf(init), lines[|lines| - 1])
  {
  }

  /** Lines that begin with a hunk are parsed by themselves. */
  lemma {:induction false} ParseAppend(a: seq<string>, b: seq<string>)
    requires b != [] && IsHunkLine(b[0])
    ensures Parse(b).hunks != [] && Parse(a + b) == Both(Parse(b), Parse(a))
    decreases |b|
  {
    hide Parse, ParseLine, IsHunkLine, Both;
    var n := |b| - 1;
    ParseLast(b);
    ParseLast(a + b);
    assert (a + b)[..|a| + n] == a + b[..n] && (a + b)[|a| + n] == b[n];
    if n == 0 {
      assert b[..0] == [] && a + b[..0] == a;
      ParseNothing();
      FirstLine(Parse(a), LastOf(a), b[0]);
    } else {
      ParseAppend(a, b[..n]);
      assert LastOf(a + b[..n]) == LastOf(b[..n]);
      ParseLineFront(Parse(b[..n]), Parse(a), LastOf(b[..n]), b[n]);
    }
  }

  lemma {:induction false} ParseEmptyLine(lines: seq<string>)
    ensures Parse(lines + [""]) == Parse(lines)
  {
    assert (lines + [""])[..|lines|] == lines;
  }

  lemma {:induction false} FirstHunkIs(lines: seq<string>, i: nat, n: nat)
    requires i <= n <= |lines|
    requires forall k :: i <= k < n ==> !IsHunkLine(lines[k])
    requires n == |lines| || IsHunkLine(lines[n])
    ensures FirstHunk(lines, i) == n
    decreases n - i
  {
    if i < n {
      FirstHunkIs(lines, i + 1, n);
    }
  }

  /** What the parser takes out of the lines in front of the hunks. */
  function Stray(front: seq<string>): Parsed { Parse(front[FirstHunk(front, 0)..]) }

  /** All the parser finds are the hunks of the patch and what it takes out of the lines in front of them. */
  lemma {:induction false} ParseBehind(front: seq<string>, lines: seq<string>)
    requires lines != [] ==> IsHunkLine(lines[0])
    ensures var all := front + lines + [""]; Parse(all[FirstHunk(all, 0)..]) == Both(Parse(lines), Stray(front))
  {
    hide Parse, IsHunkLine;
    var all, f := front + lines + [""], FirstHunk(front, 0);
    ParseNothing();
    if f < |front| {
      assert forall k :: 0 <= k < f ==> all[k] == front[k];
      FirstHunkIs(all, 0, f);
      assert all[f..] == (front[f..] + lines) + [""];
      ParseEmptyLine(front[f..] + lines);
    } else if lines == [] {
      assert front[f..] == [];
      assert forall k :: 0 <= k < |front| ==> all[k] == front[k];
      assert all[|front|] == "";
      EmptyOpensNone();
      FirstHunkIs(all, 0, |all|);
      assert all[|all|..] == [];
    } else {
      assert front[f..] == [];
      assert forall k :: 0 <= k < |front| ==> all[k] == front[k];
      assert all[|front|] == lines[0];
      FirstHunkIs(all, 0, |front|);
      assert all[|front|..] == lines + [""] && front[f..] + lines == lines;
      ParseEmptyLine(lines);
    }
    if lines == [] {
      assert front[f..] + lines == front[f..];
    } else {
      ParseAppend(front[f..], lines);
    }
  }

  lemma {:induction false} ParseNothing()
    ensures Parse([]) == Parsed([], false, false)
    ensures forall p: Parsed :: Both(Parse([]), p) == p && Both(p, Parse([])) == p
  {
  }

  lemma {:induction false} EmptyOpensNone()
    ensures !IsHunkLine("")
  {
  }

  // ---------------------------------------------------------------- applying two lists of hunks

  lemma {:induction false} ApplyAppend(lines: seq<string>, a: seq<Hunk>, b: seq<Hunk>)
    ensures ApplyHunks(lines, a + b) ==
      match ApplyHunks(lines, b) case None => None case Some(ls) => ApplyHunks(ls, a)
  {
    hide Fits, Splice;
    if a == [] {
      assert a + b == b;
    } else {
      ApplyAppend(lines, a[1..], b);
      assert (a + b)[1..] == a[1..] + b && (a + b)[0] == a[0];
    }
  }

  /** The lines that a hunk was spliced into, if those it removed are known. */
  function Unsplice(r: seq<string>, start: nat, removed: seq<string>, added: seq<string>): seq<string> {
    if |r| < |added| then []
    else
      var n := |r| - |added|;
      var i := if start < n then start else n;
      r[..i] + removed + r[i + |added|..]
  }

  lemma {:induction false} RemovedIs(ls: seq<string>, start: nat, removed: seq<string>)
    requires removed != [] && forall j :: 0 <= j < |removed| ==> Get(ls, start + j) == Some(removed[j])
    ensures start + |removed| <= |ls| && ls[start..start + |removed|] == removed
  {
    var n := |removed|;
    assert Get(ls, start + (n - 1)) == Some(removed[n - 1]);
    forall j | 0 <= j < n
      ensures ls[start + j] == removed[j]
    {
      assert Get(ls, start + j) == Some(removed[j]);
    }
  }

  lemma {:induction false} AroundAdded(front: seq<string>, added: seq<string>, back: seq<string>)
    ensures var r := front + added + back; r[..|front|] == front && r[|front| + |added|..] == back
  {
  }

  lemma {:induction false} InThree(ls: seq<string>, i: nat, j: nat)
    requires i <= j <= |ls|
    ensures ls == ls[..i] + ls[i..j] + ls[j..]
  {
  }

  lemma {:induction false} UnspliceIs(ls: seq<string>, start: nat, removed: seq<string>, added: seq<string>)
    requires forall j :: 0 <= j < |removed| ==> Get(ls, start + j) == Some(removed[j])
    ensures Unsplice(Splice(ls, start, |removed|, added), start, removed, added) == ls
  {
    hide Get;
    var i := if start < |ls| then start else |ls|;
    if removed != [] {
      RemovedIs(ls, start, removed);
    } else {
      assert ls[i..i] == removed;
    }
    var j := i + |removed|;
    InThree(ls, i, j);
    AroundAdded(ls[..i], added, ls[j..]);
    assert Splice(ls, start, |removed|, added) == ls[..i] + added + ls[j..];
  }

  /** From the result of a chain of hunks, the lines that it was applied to can be told. */
  lemma {:induction false} ApplyInjective(s: Sides, hs: seq<Section>, a: seq<string>, b: seq<string>)
    requires Chain(s, hs) && ApplyHunks(a, ToHunks(hs)).Some?
      && ApplyHunks(a, ToHunks(hs)) == ApplyHunks(b, ToHunks(hs))
    ensures a == b
  {
    hide Splice, Fits, Chain, SectionFits, ToHunk;
    if hs != [] {
      ChainTop(s, hs);
      var h := ToHunk(hs[0]);
      assert ToHunks(hs)[0] == h && ToHunks(hs)[1..] == ToHunks(hs[1..]);
      var a', b' := ApplyHunks(a, ToHunks(hs[1..])).value, ApplyHunks(b, ToHunks(hs[1..])).value;
      TopSpliced(s, hs[0], a');
      TopSpliced(s, hs[0], b');
      ApplyInjective(s, hs[1..], a, b);
    }
  }

  lemma {:induction false} TopSpliced(s: Sides, top: Section, ls: seq<string>)
    requires SectionFits(s, top)
    requires var h := ToHunk(top); Fits(ls, h, OldLength(h))
    ensures var h := ToHunk(top);
      && Start(h) >= 0
      && Unsplice(Splice(ls, Start(h), OldLength(h), h.added), Start(h), h.removed, h.added) == ls
  {
    hide Splice, Side, MarkedBody, Unsplice;
    var h := ToHunk(top);
    forall j | 0 <= j < |h.removed|
      ensures Get(ls, Start(h) + j) == Some(h.removed[j])
    {
      assert Get(ls, Start(h) + j) == Get(h.removed, j);
    }
    UnspliceIs(ls, Start(h), h.removed, h.added);
  }

  // ---------------------------------------------------------------- no line is broken

  ghost predicate FlatHunks(hunks: seq<Hunk>) { forall i :: 0 <= i < |hunks| ==> AllFlat(hunks[i].added) }

  lemma {:induction false} ParseFlat(lines: seq<string>)
    requires AllFlat(lines)
    ensures FlatHunks(Parse(lines).hunks)
  {
    hide FindHeader;
    if lines != [] {
      var n := |lines| - 1;
      ParseFlat(lines[..n]);
      assert Flat(lines[n]);
      ParseLineFlat(Parse(lines[..n]), LastOf(lines[..n]), lines[n]);
    }
  }

  lemma {:induction false} ParseLineFlat(p: Parsed, prev: string, line: string)
    requires FlatHunks(p.hunks) && Flat(line)
    ensures FlatHunks(ParseLine(p, prev, line).hunks)
  {
    hide FindHeader;
    assert line != "" ==> Flat(line[1..]);
  }

  lemma {:induction false} ApplyFlat(lines: seq<string>, hunks: seq<Hunk>)
    requires AllFlat(lines) && FlatHunks(hunks) && ApplyHunks(lines, hunks).Some?
    ensures AllFlat(ApplyHunks(lines, hunks).value)
  {
    hide Fits;
    if hunks != [] {
      ApplyFlat(lines, hunks[1..]);
      assert AllFlat(hunks[0].added);
    }
  }

  // ---------------------------------------------------------------- the end of the text

  function Empties(k: nat): (r: seq<string>)
    ensures |r| == k && forall i :: 0 <= i < k ==> r[i] == ""
  {
    seq(k, _ => "")
  }

  lemma {:induction false} DropEmptyIs(lines: seq<string>) returns (k: nat)
    ensures lines == DropEmpty(lines) + Empties(k)
    ensures DropEmpty(lines) != [] ==> LastOf(DropEmpty(lines)) != ""
    ensures AllEmpty(lines) <==> DropEmpty(lines) == []
  {
    if lines != [] && lines[|lines| - 1] == "" {
      var j := DropEmptyIs(lines[..|lines| - 1]);
      k := j + 1;
      assert lines == lines[..|lines| - 1] + [""];
      assert Empties(k) == Empties(j) + [""];
      assert forall i :: 0 <= i < |lines| - 1 ==> lines[i] == lines[..|lines| - 1][i];
    } else {
      k := 0;
      assert lines != [] ==> lines[|lines| - 1] != "";
    }
  }

  lemma {:induction false} DropEmpties(lines: seq<string>, k: nat)
    requires lines != [] && LastOf(lines) != ""
    ensures DropEmpty(lines + Empties(k)) == lines && !AllEmpty(lines + Empties(k))
  {
    var all := lines + Empties(k);
    assert all[|lines| - 1] != "";
    if k == 0 {
      assert all == lines;
    } else {
      assert all[..|all| - 1] == lines + Empties(k - 1);
      DropEmpties(lines, k - 1);
    }
  }

  lemma {:induction false} JoinsTo(lines: seq<string>, s: string)
    requires AllFlat(lines)
    ensures Join(lines) == s <==> lines == Split(s) || (s == "" && lines == [])
  {
    if lines != [] {
      SplitJoin(lines);
      JoinSplit(s);
    }
    JoinSplit(s);
  }
}
