/** Printing a diff of two texts as a unified patch, and the round trip through `PatchApply`. */
module PatchCreate {
  import opened Wrappers
  import opened Text
  import opened UnifiedFormat
  import opened PatchSections
  import opened PatchLayout
  import opened PatchApply
  import opened PatchContext
  import opened PatchPrint
  import opened PatchHeader
  import opened EditScript
  import opened ScriptValues
  import DiffSearch
  import StringDiff

  // ---------------------------------------------------------------- the diff of two texts

  lemma {:induction false} SameTokens(oldStr: string, newStr: string)
    requires oldStr != newStr
    ensures var p := TextProblem(oldStr, newStr);
      !(|p.oldTokens| == |p.newTokens| && KeptRun(p, 0, 0, |p.newTokens|))
  {
    var p := TextProblem(oldStr, newStr);
    if |p.oldTokens| == |p.newTokens| && KeptRun(p, 0, 0, |p.newTokens|) {
      KeptIsEqual(oldStr, newStr, 0, 0, |p.newTokens|);
      assert Tokens(oldStr) == Tokens(oldStr)[0..|p.oldTokens|] == Tokens(newStr)[0..|p.newTokens|] == Tokens(newStr);
      ConcatTokens(oldStr);
      ConcatTokens(newStr);
    }
  }

  /** A script of one component, which takes up both texts. */
  lemma {:induction false} OneComponent<T>(p: Problem<T>, c: Component)
    requires c.count > 0
    requires |p.oldTokens| == (if c.kind == Added then 0 else c.count)
    requires |p.newTokens| == (if c.kind == Removed then 0 else c.count)
    requires c.kind == Kept ==> KeptRun(p, 0, 0, c.count)
    ensures Complete(p, [c]) && Canonical([c])
    ensures Valued(p, [c]) == [Change(c.kind, c.count, Value(p, 0, 0, c))]
  {
    hide KeptRun, Value;
    assert [] + [c] == [c] && [c][..0] == [];
    SpanSnoc([], c);
    TracesSnoc(p, [], c);
    ValuedSnoc(p, [], c);
    assert Traces(p, []) && Valued(p, []) == [];
    assert |[c]| == 1 && Alternates([c][..0]);
    assert Alternates([c]);
  }

  /** The script that keeps, removes or adds everything. */
  lemma {:induction false} SingleBlock(oldStr: string, newStr: string, kind: Kind)
    requires match kind
      case Kept => oldStr == newStr != ""
      case Added => oldStr == "" && newStr != ""
      case Removed => newStr == "" && oldStr != ""
    ensures var cs := [Component(|Tokens(if kind == Added then newStr else oldStr)|, kind)];
      Scripted(oldStr, newStr, cs, [PatchChange(kind, if kind == Added then newStr else oldStr, None)])
  {
    hide Tokens, Concat, KeptRun, Terminated, EndsNL, Valued, Canonical, Traces, OldSpan, NewSpan;
    var p := TextProblem(oldStr, newStr);
    var s := if kind == Added then newStr else oldStr;
    var c := Component(|Tokens(s)|, kind);
    TokensTerminated(oldStr);
    TokensTerminated(newStr);
    ConcatTokens(s);
    if kind == Kept {
      KeptSelf(p, |p.oldTokens|);
    }
    OneComponent(p, c);
    assert Value(p, 0, 0, c) == Tokens(s);
  }

  lemma {:induction false} KeptSelf(p: Problem<string>, n: nat)
    requires p.oldTokens == p.newTokens && n <= |p.oldTokens|
    requires forall t: string :: p.equals(t, t)
    ensures KeptRun(p, 0, 0, n)
  {
    if n > 0 {
      KeptSelf(p, n - 1);
    }
  }

  /** Two empty texts are one kept block with one empty line. */
  lemma {:induction false} EmptyCovers()
    ensures Covers("", "", [PatchChange(Kept, "", None)], Layout(Sides([""], [""]), [0, 1], [0, 1], true, true))
  {
    var diff := [PatchChange(Kept, "", None)];
    var l := Layout(Sides([""], [""]), [0, 1], [0, 1], true, true);
    assert LinesOf(diff[0]) == [""] == l.sides.oldLines[0..1];
    assert Block(l, diff, 0);
    assert !OpenAmong(diff, Added, 0) && !OpenAmong(diff, Removed, 0);
  }

  /** The line diff of two texts, as the printer receives it. */
  method DiffTexts(oldStr: string, newStr: string) returns (diff: seq<PatchChange>, ghost l: Layout)
    ensures Covers(oldStr, newStr, diff, l)
    ensures if oldStr == newStr == "" then diff == [PatchChange(Kept, "", None)]
            else l.oldOpen == TextOpen(oldStr) && l.newOpen == TextOpen(newStr)
  {
    hide Covers, Joined, Traces, Complete, StringDiff.NewString, StringDiff.OldString;
    hide DiffSearch.Answers, Concat;
    var oldTokens := Tokenize(oldStr);
    var newTokens := Tokenize(newStr);
    var p := LineProblem(oldTokens, newTokens);
    var changes, tokens := StringDiff.Diff(oldStr, newStr, p);
    diff := seq(|changes|, i requires 0 <= i < |changes| => PatchChange(changes[i].kind, changes[i].value, None));
    if newStr == oldStr == "" {
      assert diff == [PatchChange(Kept, "", None)];
      EmptyCovers();
      l := Layout(Sides([""], [""]), [0, 1], [0, 1], true, true);
    } else if newStr == oldStr || newStr == "" || oldStr == "" {
      assert diff == [PatchChange(changes[0].kind, changes[0].value, None)];
      l := CoverSingle(oldStr, newStr, changes[0].kind);
    } else {
      ScriptedBySearch(oldStr, newStr, tokens, changes, diff);
      l := CoverScript(oldStr, newStr, Components(tokens), diff);
    }
  }

  lemma {:induction false} ScriptedBySearch(oldStr: string, newStr: string, tokens: seq<Change<string>>,
                                            changes: seq<StringDiff.TextChange>, diff: seq<PatchChange>)
    requires oldStr != newStr
    requires DiffSearch.Answers(TextProblem(oldStr, newStr), tokens) && StringDiff.Joins(tokens, changes)
    requires |diff| == |changes|
    requires forall i :: 0 <= i < |diff| ==> diff[i] == PatchChange(changes[i].kind, changes[i].value, None)
    ensures Scripted(oldStr, newStr, Components(tokens), diff)
  {
    SameTokens(oldStr, newStr);
  }

  lemma {:induction false} CoverSingle(oldStr: string, newStr: string, kind: Kind) returns (l: Layout)
    requires match kind
      case Kept => oldStr == newStr != ""
      case Added => oldStr == "" && newStr != ""
      case Removed => newStr == "" && oldStr != ""
    ensures Covers(oldStr, newStr, [PatchChange(kind, if kind == Added then newStr else oldStr, None)], l)
    ensures l.oldOpen == TextOpen(oldStr) && l.newOpen == TextOpen(newStr)
  {
    var s := if kind == Added then newStr else oldStr;
    var cs := [Component(|Tokens(s)|, kind)];
    SingleBlock(oldStr, newStr, kind);
    ScriptCovers(oldStr, newStr, cs, [PatchChange(kind, s, None)]);
    l := LayoutOf(oldStr, newStr, cs);
  }

  lemma {:induction false} CoverScript(oldStr: string, newStr: string, cs: seq<Component>, diff: seq<PatchChange>)
    returns (l: Layout)
    requires Scripted(oldStr, newStr, cs, diff) && newStr != ""
    ensures Covers(oldStr, newStr, diff, l)
    ensures l.oldOpen == TextOpen(oldStr) && l.newOpen == TextOpen(newStr)
  {
    TokensTerminated(newStr);
    ScriptCovers(oldStr, newStr, cs, diff);
    l := LayoutOf(oldStr, newStr, cs);
  }

  // ---------------------------------------------------------------- the printed text

  function Repeat(c: char, n: nat): (s: string)
    ensures |s| == n && forall i :: 0 <= i < n ==> s[i] == c
  {
    if n == 0 then "" else Repeat(c, n - 1) + [c]
  }

  const RULE: string := Repeat('=', 67)

  function FileLine(mark: string, name: string, header: Option<string>): string {
    mark + name + if header.Some? then "\t" + header.value else ""
  }

  function HeaderLines(oldFileName: string, newFileName: string, oldHeader: Option<string>, newHeader: Option<string>):
    (lines: seq<string>)
    ensures lines != []
  {
    (if oldFileName == newFileName then ["Index: " + oldFileName] else [])
    + [RULE, FileLine("--- ", oldFileName, oldHeader), FileLine("+++ ", newFileName, newHeader)]
  }

  /** The lines of a text; what follows its last newline is one only if it is not empty. */
  function ClosedLines(s: string): seq<string> {
    if TextOpen(s) then Split(s) else Split(s)[..|Split(s)| - 1]
  }

  function TextSides(oldStr: string, newStr: string): Sides { Sides(ClosedLines(oldStr), ClosedLines(newStr)) }

  /** The patch lists a chain of hunks that accounts for everything between the two texts, and notes missing final
      newlines where a block lacks one. */
  ghost predicate Patches(oldStr: string, newStr: string, header: seq<string>, patch: string, blocks: seq<PatchChange>,
                          hs: seq<Section>)
  {
    var s := TextSides(oldStr, newStr);
    && patch == Join(header + RenderAll(hs)) + "\n"
    && Chain(s, hs)
    && SameGap(s, OldEnd(hs), NewEnd(hs), |s.oldLines|, |s.newLines|)
    && (Noted(RenderAll(hs), '+') <==> OpenAmong(blocks, Added, |blocks|))
    && (Noted(RenderAll(hs), '-') <==> OpenAmong(blocks, Removed, |blocks|))
    && NotesRight(oldStr, newStr, OpenAmong(blocks, Added, |blocks|), OpenAmong(blocks, Removed, |blocks|))
  }

  /** What notes about added and about removed lines say about the final newlines of the texts. */
  predicate NotesRight(oldStr: string, newStr: string, added: bool, removed: bool) {
    && (added ==> TextOpen(newStr))
    && (removed ==> TextOpen(oldStr))
    && (TextOpen(newStr) && !added ==> TextOpen(oldStr) && !removed)
    && (TextOpen(oldStr) && !TextOpen(newStr) ==> removed)
  }

  lemma {:induction false} ClosedIs(s: string, lines: seq<string>)
    requires Split(s) == lines + Tail(TextOpen(s))
    ensures lines == ClosedLines(s)
  {
    hide Split;
    assert lines + [] == lines && (lines + [""])[..|lines|] == lines;
  }

  lemma {:induction false} ClosedTail(s: string)
    ensures Split(s) == ClosedLines(s) + Tail(TextOpen(s))
    ensures TextOpen(s) ==> ClosedLines(s) != [] && LastOf(ClosedLines(s)) != ""
  {
    hide Split;
    SplitEnds(s);
    var lines := Split(s);
    assert lines + [] == lines && lines[..|lines| - 1] + [lines[|lines| - 1]] == lines;
  }

  /** The chain between the laid out lines is one between those of the texts. */
  lemma {:induction false} CoversPatches(oldStr: string, newStr: string, header: seq<string>, patch: string,
                                         blocks: seq<PatchChange>, l: Layout, hs: seq<Section>)
    requires Covers(oldStr, newStr, blocks, l) && patch == Join(header + RenderAll(hs)) + "\n"
    requires Chain(l.sides, hs)
    requires SameGap(l.sides, OldEnd(hs), NewEnd(hs), |l.sides.oldLines|, |l.sides.newLines|)
    requires Noted(RenderAll(hs), '+') <==> OpenAmong(blocks, Added, |blocks|)
    requires Noted(RenderAll(hs), '-') <==> OpenAmong(blocks, Removed, |blocks|)
    requires Spaced(l.sides, hs)
    requires if oldStr == newStr == ""
             then hs == [] && !OpenAmong(blocks, Added, |blocks|) && !OpenAmong(blocks, Removed, |blocks|)
             else l.oldOpen == TextOpen(oldStr) && l.newOpen == TextOpen(newStr)
    ensures Patches(oldStr, newStr, header, patch, blocks, hs) && Spaced(TextSides(oldStr, newStr), hs)
  {
    hide LaidOut, Split, Join, RenderAll, Noted, OpenAmong;
    if oldStr == newStr == "" {
      EmptyLines();
    } else {
      hide Chain, SameGap, Spaced;
      ClosedIs(oldStr, l.sides.oldLines);
      ClosedIs(newStr, l.sides.newLines);
    }
  }

  lemma {:induction false} EmptyLines()
    ensures ClosedLines("") == [] && !TextOpen("")
  {
    assert Split("") == [""];
  }

  lemma {:induction false} DecimalFlat(s: string)
    requires AllDigits(s)
    ensures Flat(s)
  {
  }

  lemma {:induction false} HeaderLineFlat(h: Header)
    ensures Flat(RenderHeader(h)) && IsHunkLine(RenderHeader(h))
  {
    DecimalFlat(Decimal(h.oldStart));
    DecimalFlat(Decimal(h.oldLength));
    DecimalFlat(Decimal(h.newStart));
    DecimalFlat(Decimal(h.newLength));
  }

  lemma {:induction false} RenderFlat(hs: seq<Section>)
    requires AllMarked(hs)
    ensures AllFlat(RenderAll(hs))
    ensures hs == [] <==> RenderAll(hs) == []
    ensures hs != [] ==> IsHunkLine(RenderAll(hs)[0])
  {
    if hs != [] {
      assert AllMarked(hs[1..]);
      RenderFlat(hs[1..]);
      HeaderLineFlat(hs[0].header);
      var body := hs[0].body;
      forall i | 0 <= i < |body|
        ensures Flat(body[i])
      {
        assert MarkedBody(body) && Marked(body[i]);
      }
    }
  }

  /** The lines of the patch are those of the header, those of the hunks, and an empty rest. */
  lemma {:induction false} PatchLines(header: seq<string>, lines: seq<string>)
    requires header != [] && AllFlat(lines)
    ensures Split(Join(header + lines) + "\n") == Split(Join(header)) + lines + [""]
  {
    var text := Join(header + lines);
    SplitAppend(text, "");
    assert text + "\n" + "" == text + "\n";
    if lines == [] {
      assert header + lines == header;
    } else {
      JoinAppend(header, lines);
      SplitAppend(Join(header), Join(lines));
      SplitJoin(lines);
    }
  }

  /** The parser finds the hunks of the patch, and those that it takes out of the header. */
  lemma {:induction false} ParsePatchText(header: seq<string>, hs: seq<Section>)
    requires header != [] && AllMarked(hs)
    ensures var diffstr := Split(Join(header + RenderAll(hs)) + "\n");
      Parse(diffstr[FirstHunk(diffstr, 0)..]) == Both(Parse(RenderAll(hs)), Stray(Split(Join(header))))
  {
    hide Parse, Split, Join, RenderAll, Stray, Both, IsHunkLine;
    RenderFlat(hs);
    PatchLines(header, RenderAll(hs));
    ParseBehind(Split(Join(header)), RenderAll(hs));
  }

  // ---------------------------------------------------------------- the round trip

  /** Whatever comes behind the old lines stays where it is. */
  lemma {:induction false} ChainApplied(oldStr: string, newStr: string, hs: seq<Section>, tail: seq<string>)
    requires var s := TextSides(oldStr, newStr);
      Chain(s, hs) && SameGap(s, OldEnd(hs), NewEnd(hs), |s.oldLines|, |s.newLines|)
    ensures ApplyHunks(ClosedLines(oldStr) + tail, ToHunks(hs)) == Some(ClosedLines(newStr) + tail)
  {
    hide ApplyHunks, Chain, ClosedLines, ToHunks;
    var s := TextSides(oldStr, newStr);
    ApplyChain(s, hs, tail);
    MoveSeam(s, tail, OldEnd(hs), NewEnd(hs), |s.oldLines|, |s.newLines|);
    assert s.newLines[..|s.newLines|] + (s.oldLines[|s.oldLines|..] + tail) == s.newLines + tail;
  }

  /** So the lines with this result are the old ones and the same rest. */
  lemma {:induction false} ChainReverts(oldStr: string, newStr: string, hs: seq<Section>, ls: seq<string>,
                                        tail: seq<string>)
    requires var s := TextSides(oldStr, newStr);
      Chain(s, hs) && SameGap(s, OldEnd(hs), NewEnd(hs), |s.oldLines|, |s.newLines|)
    ensures ApplyHunks(ls, ToHunks(hs)) == Some(ClosedLines(newStr) + tail) <==> ls == ClosedLines(oldStr) + tail
  {
    hide ApplyHunks, Chain, ClosedLines, ToHunks, SameGap;
    ChainApplied(oldStr, newStr, hs, tail);
    if ApplyHunks(ls, ToHunks(hs)) == Some(ClosedLines(newStr) + tail) {
      ApplyInjective(TextSides(oldStr, newStr), hs, ls, ClosedLines(oldStr) + tail);
    }
  }

  /** What has to be left of the old text when the hunks taken out of the header have been applied, given the notes in
      all of the patch. */
  ghost predicate LeavesEnough(oldStr: string, newStr: string, ls: seq<string>, rem: bool, add: bool) {
    var lines := ClosedLines(oldStr);
    if rem then TextOpen(newStr) && exists k: nat :: ls == lines + Empties(k)
    else if add then !TextOpen(newStr) && ls == lines
    else ls == lines + Tail(TextOpen(newStr)) || (newStr == "" && ls == lines)
  }

  /** The hunks taken out of the header can be applied, and leave enough of the old text. */
  ghost predicate Survives(oldStr: string, newStr: string, header: seq<string>, hs: seq<Section>) {
    var stray := Stray(Split(Join(header)));
    var ls := ApplyHunks(Split(oldStr), stray.hunks);
    && ls.Some?
    && LeavesEnough(oldStr, newStr, ls.value, stray.remEOFNL || Noted(RenderAll(hs), '+'),
                    stray.addEOFNL || Noted(RenderAll(hs), '-'))
  }

  /** The hunks taken out of the header remove and add nothing, and it holds no note. */
  predicate Harmless(header: seq<string>) {
    var stray := Stray(Split(Join(header)));
    && !stray.remEOFNL && !stray.addEOFNL
    && forall i :: 0 <= i < |stray.hunks| ==> OldLength(stray.hunks[i]) == 0 && stray.hunks[i].added == []
  }

  lemma {:induction false} FinishIff(newStr: string, x: seq<string>, p: Parsed)
    requires AllFlat(x)
    ensures var lines := ClosedLines(newStr);
      Finish(x, p) == Applied(newStr) <==>
        if p.remEOFNL then TextOpen(newStr) && exists k: nat :: x == lines + Empties(k)
        else if p.addEOFNL then !TextOpen(newStr) && x == lines + []
        else x == lines + Tail(TextOpen(newStr)) || (newStr == "" && x == lines + [])
  {
    hide Join, Split, DropEmpty, AllEmpty, ClosedLines;
    ClosedTail(newStr);
    var lines := ClosedLines(newStr);
    assert lines + [] == lines;
    if p.remEOFNL {
      DroppedIff(newStr, x);
    } else if p.addEOFNL {
      JoinsTo(x + [""], newStr);
      AddedIff(lines, x, TextOpen(newStr));
    } else {
      JoinsTo(x, newStr);
      if newStr == "" {
        EmptyLines();
      }
    }
  }

  lemma {:induction false} AddedIff(lines: seq<string>, x: seq<string>, open: bool)
    requires open ==> lines != [] && LastOf(lines) != ""
    ensures x + [""] == lines + Tail(open) <==> !open && x == lines
  {
    if open {
      assert lines + [] == lines;
      assert (x + [""])[|x|] == "";
    } else if x + [""] == lines + [""] {
      assert (x + [""])[..|x|] == x && (lines + [""])[..|lines|] == lines;
    }
  }

  lemma {:induction false} DroppedIff(newStr: string, x: seq<string>)
    requires AllFlat(x)
    ensures !AllEmpty(x) && Join(DropEmpty(x)) == newStr <==>
      TextOpen(newStr) && exists k: nat :: x == ClosedLines(newStr) + Empties(k)
  {
    hide Join, Split, DropEmpty, AllEmpty, ClosedLines, TextOpen;
    var lines, dropped := ClosedLines(newStr), DropEmpty(x);
    ClosedTail(newStr);
    var k := DropEmptyIs(x);
    assert forall i :: 0 <= i < |dropped| ==> dropped[i] == x[i];
    JoinsTo(dropped, newStr);
    assert lines + [] == lines;
    if !AllEmpty(x) && Join(dropped) == newStr {
      OpenEnd(newStr);
    }
    if TextOpen(newStr) {
      forall j: nat | x == lines + Empties(j)
        ensures dropped == lines && !AllEmpty(x)
      {
        DropEmpties(lines, j);
      }
    }
  }

  lemma {:induction false} OpenEnd(s: string)
    ensures LastOf(Split(s)) != "" ==> TextOpen(s)
  {
    SplitEnds(s);
  }

  /** Applying a patch to the text it was made from gives the text it was made for exactly if what the parser takes out
      of the header leaves enough of the old text. */
  lemma {:induction false} RoundTripIff(oldStr: string, newStr: string, header: seq<string>, patch: string,
                                        blocks: seq<PatchChange>, hs: seq<Section>)
    requires Patches(oldStr, newStr, header, patch, blocks, hs) && header != []
    ensures Apply(oldStr, patch) == Applied(newStr) <==> Survives(oldStr, newStr, header, hs)
  {
    hide Split, Join, RenderAll, Chain, SameGap, Finish, ApplyHunks, Parse, OpenAmong, Noted, FirstHunk, Stray;
    hide LeavesEnough, ToHunks, NotesRight, ClosedLines;
    var front := Split(Join(header));
    var stray, body := Stray(front), Parse(RenderAll(hs));
    ChainMarked(TextSides(oldStr, newStr), hs);
    SplitAllFlat(Join(header));
    ParsePatchText(header, hs);
    ParseRendered(hs);
    ParseFlags(RenderAll(hs));
    ApplyAppend(Split(oldStr), ToHunks(hs), stray.hunks);
    var ls := ApplyHunks(Split(oldStr), stray.hunks);
    if ls.Some? {
      StrayFlat(oldStr, front);
      ChainSurvives(oldStr, newStr, hs, ls.value, Both(body, stray));
    }
  }

  lemma {:induction false} StrayFlat(oldStr: string, front: seq<string>)
    requires AllFlat(front)
    ensures var ls := ApplyHunks(Split(oldStr), Stray(front).hunks); ls.Some? ==> AllFlat(ls.value)
  {
    hide Split, ApplyHunks, Parse, FirstHunk;
    SplitAllFlat(oldStr);
    ParseFlat(front[FirstHunk(front, 0)..]);
    if ApplyHunks(Split(oldStr), Stray(front).hunks).Some? {
      ApplyFlat(Split(oldStr), Stray(front).hunks);
    }
  }

  lemma {:induction false} ChainSurvives(oldStr: string, newStr: string, hs: seq<Section>, ls: seq<string>, p: Parsed)
    requires var s := TextSides(oldStr, newStr);
      Chain(s, hs) && SameGap(s, OldEnd(hs), NewEnd(hs), |s.oldLines|, |s.newLines|)
    requires AllFlat(ls)
    ensures var x := ApplyHunks(ls, ToHunks(hs));
      x.Some? && Finish(x.value, p) == Applied(newStr) <==> LeavesEnough(oldStr, newStr, ls, p.remEOFNL, p.addEOFNL)
  {
    hide Chain, SameGap, Finish, ApplyHunks, ToHunks, ClosedLines, TextOpen;
    var x := ApplyHunks(ls, ToHunks(hs));
    forall tail: seq<string>
      ensures x == Some(ClosedLines(newStr) + tail) <==> ls == ClosedLines(oldStr) + tail
    {
      ChainReverts(oldStr, newStr, hs, ls, tail);
    }
    assert ClosedLines(oldStr) + [] == ClosedLines(oldStr);
    if x.Some? {
      ChainFlat(TextSides(oldStr, newStr), hs, ls);
      FinishIff(newStr, x.value, p);
    }
  }

  lemma {:induction false} ChainFlat(s: Sides, hs: seq<Section>, ls: seq<string>)
    requires Chain(s, hs) && AllFlat(ls) && ApplyHunks(ls, ToHunks(hs)).Some?
    ensures AllFlat(ApplyHunks(ls, ToHunks(hs)).value)
  {
    hide Chain, ApplyHunks, Parse;
    ChainMarked(s, hs);
    RenderFlat(hs);
    ParseFlat(RenderAll(hs));
    ParseRendered(hs);
    ApplyFlat(ls, ToHunks(hs));
  }

  /** Applying a patch with a harmless header to the text it was made from gives the text it was made for. */
  lemma {:induction false} RoundTrip(oldStr: string, newStr: string, header: seq<string>, patch: string,
                                     blocks: seq<PatchChange>, hs: seq<Section>)
    requires Patches(oldStr, newStr, header, patch, blocks, hs) && header != [] && Harmless(header)
    ensures Apply(oldStr, patch) == Applied(newStr)
  {
    hide Split, Join, RenderAll, Chain, SameGap, Apply, OpenAmong, Noted, Stray, ClosedLines, ApplyHunks;
    RoundTripIff(oldStr, newStr, header, patch, blocks, hs);
    NothingStrays(Split(oldStr), Stray(Split(Join(header))).hunks);
    ClosedTail(oldStr);
    assert ClosedLines(oldStr) + [] == ClosedLines(oldStr) + Empties(0);
    assert ClosedLines(oldStr) + [""] == ClosedLines(oldStr) + Empties(1);
  }

  lemma {:induction false} NothingStrays(lines: seq<string>, hunks: seq<Hunk>)
    requires forall i :: 0 <= i < |hunks| ==> OldLength(hunks[i]) == 0 && hunks[i].added == []
    ensures ApplyHunks(lines, hunks) == Some(lines)
  {
    if hunks != [] {
      NothingStrays(lines, hunks[1..]);
      var i := Start(hunks[0]);
      assert Splice(lines, i, 0, []) == lines;
    }
  }

  /** A header none of whose lines starts like a hunk is harmless. */
  lemma {:induction false} PlainIsHarmless(header: seq<string>)
    requires forall i :: 0 <= i < |Split(Join(header))| ==> !IsHunkLine(Split(Join(header))[i])
    ensures Harmless(header)
  {
    hide Split, Join, IsHunkLine;
    var front := Split(Join(header));
    FirstHunkIs(front, 0, |front|);
    assert front[|front|..] == [];
  }

  /** A header with a line of its own that starts like a hunk: the line after it is taken for an added one. */
  lemma {:induction false} HeaderTakenForHunk()
    ensures var header := HeaderLines("f", "f", Some("\n@@"), None);
      !Harmless(header) && Apply("", Join(header) + "\n") == Applied("++ f\n")
  {
    hide Split, Join, FirstHunk, Parse, ApplyHunks;
    var header := HeaderLines("f", "f", Some("\n@@"), None);
    var front := ["Index: f", RULE, "--- f\t"];
    var lines := front + ["@@", "+++ f"];
    SameJoin();
    FlatLines();
    SplitJoin(lines);
    ParsePatchText(header, []);
    assert header + [] == header;
    ParseNothing();
    FirstHunkIs(lines, 0, 3);
    assert lines[3..] == ["@@", "+++ f"];
    OneStrayLine();
    assert Stray(lines).hunks[0].added != [];
    StrayApplied([""], Hunk(None, [], ["++ f"]));
    JoinAppend(["++ f"], [""]);
    OneLineJoined("++ f");
    OneLineJoined("");
    SplitFlat("");
  }

  lemma {:induction false} OneLineJoined(line: string)
    ensures Join([line]) == line
  {
  }

  lemma {:induction false} FlatLines()
    ensures var lines := ["Index: f", RULE, "--- f\t"] + ["@@", "+++ f"];
      AllFlat(lines) && forall i :: 0 <= i < |lines| ==> (IsHunkLine(lines[i]) <==> i == 3)
  {
    assert Flat("Index: f");
    assert Flat(RULE);
    assert Flat("--- f\t");
    assert Flat("@@");
    assert Flat("+++ f");
  }

  lemma {:induction false} SameJoin()
    ensures Join(HeaderLines("f", "f", Some("\n@@"), None)) == Join(["Index: f", RULE, "--- f\t"] + ["@@", "+++ f"])
  {
    hide Join;
    var names, two, three := ["Index: f", RULE], ["--- f\t\n@@", "+++ f"], ["--- f\t", "@@", "+++ f"];
    assert FileLine("--- ", "f", Some("\n@@")) == two[0] && FileLine("+++ ", "f", None) == two[1];
    assert "Index: " + "f" == "Index: f";
    assert HeaderLines("f", "f", Some("\n@@"), None) == names + two;
    assert ["Index: f", RULE, "--- f\t"] + ["@@", "+++ f"] == names + three;
    JoinAppend(names, two);
    JoinAppend(names, three);
    JoinsAlike("--- f\t", "@@", "+++ f");
    assert "--- f\t" + "\n" + "@@" == two[0];
  }

  lemma {:induction false} JoinsAlike(a: string, b: string, c: string)
    ensures Join([a + "\n" + b, c]) == Join([a, b, c])
  {
    assert [a + "\n" + b, c][..1] == [a + "\n" + b];
    assert [a, b, c][..2] == [a, b] && [a, b][..1] == [a];
    assert Join([a + "\n" + b]) == a + "\n" + b == Join([a, b]);
  }

  lemma {:induction false} OneStrayLine()
    ensures Parse(["@@", "+++ f"]) == Parsed([Hunk(None, [], ["++ f"])], false, false)
  {
    assert ["@@", "+++ f"][..1] == ["@@"] && ["@@"][..0] == [];
    NoHeader();
    assert "+++ f"[1..] == "++ f";
    assert Parse(["@@"]).hunks == [Hunk(None, [], [])];
    var h := Hunk(None, [], ["++ f"]);
    var none: seq<string> := [];
    assert none + none == none && none + ["++ f"] == ["++ f"];
    assert AddTo([Hunk(None, none, none)], none, ["++ f"]) == [h];
  }

  /** A hunk without a header puts its lines in front. */
  lemma {:induction false} StrayApplied(lines: seq<string>, h: Hunk)
    requires h.header == None
    ensures ApplyHunks(lines, [h]) == Some(h.added + lines)
  {
    assert [h][1..] == [];
    assert Splice(lines, 0, 0, h.added) == h.added + lines;
  }

  lemma {:induction false} NoHeader()
    ensures FindHeader("@@", 0) == None
  {
  }

  lemma {:induction false} JoinThree(a: string, b: string, c: string)
    ensures Join([a, b, c]) + "\n" == a + "\n" + b + "\n" + c + "\n"
  {
    assert [a, b, c][..2] == [a, b] && [a, b][..1] == [a];
    OneLineJoined(a);
    assert Join([a, b]) == a + "\n" + b;
  }

  lemma {:induction false} HeaderText(oldFileName: string, newFileName: string, oldHeader: Option<string>,
                                      newHeader: Option<string>)
    ensures Join(HeaderLines(oldFileName, newFileName, oldHeader, newHeader)) + "\n"
      == (if oldFileName == newFileName then "Index: " + oldFileName + "\n" else "")
        + (RULE + "\n"
           + ("--- " + oldFileName + (if oldHeader.Some? then "\t" + oldHeader.value else "")) + "\n"
           + ("+++ " + newFileName + (if newHeader.Some? then "\t" + newHeader.value else "")) + "\n")
  {
    hide Join, Repeat;
    var first, second := FileLine("--- ", oldFileName, oldHeader), FileLine("+++ ", newFileName, newHeader);
    JoinThree(RULE, first, second);
    IndexJoined(oldFileName, [RULE, first, second]);
    assert [] + [RULE, first, second] == [RULE, first, second];
  }

  lemma {:induction false} IndexJoined(name: string, lines: seq<string>)
    requires lines != []
    ensures Join(["Index: " + name] + lines) + "\n" == ("Index: " + name + "\n") + (Join(lines) + "\n")
    ensures "" + (Join(lines) + "\n") == Join(lines) + "\n"
  {
    hide Join;
    JoinAppend(["Index: " + name], lines);
    OneLineJoined("Index: " + name);
  }

  lemma {:induction false} PatchStarts(header: seq<string>, lines: seq<string>)
    requires header != []
    ensures Join(header) + "\n" <= Join(header + lines) + "\n"
  {
    hide Join;
    if lines == [] {
      assert header + lines == header;
    } else {
      JoinAppend(header, lines);
    }
  }

  method CreateTwoFilesPatch(oldFileName: string, newFileName: string, oldStr: string, newStr: string,
                             oldHeader: Option<string>, newHeader: Option<string>)
    returns (patch: string, ghost blocks: seq<PatchChange>, ghost hs: seq<Section>)
    ensures var header := HeaderLines(oldFileName, newFileName, oldHeader, newHeader);
      && Patches(oldStr, newStr, header, patch, blocks, hs)
      && (if oldFileName == newFileName then "Index: " + oldFileName + "\n" else "")
         + (RULE + "\n"
            + ("--- " + oldFileName + (if oldHeader.Some? then "\t" + oldHeader.value else "")) + "\n"
            + ("+++ " + newFileName + (if newHeader.Some? then "\t" + newHeader.value else "")) + "\n") <= patch
      && Spaced(TextSides(oldStr, newStr), hs)
      && (Apply(oldStr, patch) == Applied(newStr) <==> Survives(oldStr, newStr, header, hs))
      && (Harmless(header) ==> Apply(oldStr, patch) == Applied(newStr))
  {
    hide Patches, Survives, Harmless, Covers, Spaced, Chain, SameGap, Noted, Apply, RenderAll, Join;
    var ret := HeaderLines(oldFileName, newFileName, oldHeader, newHeader);
    ghost var header := ret;
    var diff;
    ghost var l;
    diff, l := DiffTexts(oldStr, newStr);
    var lines;
    LaidOutCovers(oldStr, newStr, diff, l);
    lines, hs := PrintHunks(diff, l);
    PatchStarts(ret, lines);
    HeaderText(oldFileName, newFileName, oldHeader, newHeader);
    ret := ret + lines;
    patch := Join(ret) + "\n";
    blocks := diff;
    CoversPatches(oldStr, newStr, header, patch, blocks, l, hs);
    RoundTripIff(oldStr, newStr, header, patch, blocks, hs);
    if Harmless(header) {
      RoundTrip(oldStr, newStr, header, patch, blocks, hs);
    }
  }

  lemma {:induction false} LaidOutCovers(oldStr: string, newStr: string, blocks: seq<PatchChange>, l: Layout)
    requires Covers(oldStr, newStr, blocks, l)
    ensures LaidOut(l, blocks)
  {
  }

  method CreatePatch(fileName: string, oldStr: string, newStr: string, oldHeader: Option<string>,
                     newHeader: Option<string>)
    returns (patch: string)
    ensures Harmless(HeaderLines(fileName, fileName, oldHeader, newHeader)) ==> Apply(oldStr, patch) == Applied(newStr)
  {
    ghost var blocks, hs;
    patch, blocks, hs := CreateTwoFilesPatch(fileName, fileName, oldStr, newStr, oldHeader, newHeader);
  }
}
