/** The loop that prints the hunks of a patch: context of four lines, nearby changes joined, and the notes about a
    missing final newline. */
module PatchPrint {
  import opened Wrappers
  import opened Text
  import opened UnifiedFormat
  import opened PatchSections
  import opened PatchLayout
  import opened PatchContext
  import opened EditScript

  /** The loop's variables: the open range (starts 0 when there is none) with its lines, the current line numbers,
      and the lines printed so far. */
  datatype Progress = Progress(oldRangeStart: nat, newRangeStart: nat, curRange: seq<string>,
                               oldLine: nat, newLine: nat, ret: seq<string>)

  const NOTE := "\\ No newline at end of file"

  function ContextLines(lines: seq<string>): seq<string> { Prefixed(' ', lines) }

  function LastLines(lines: seq<string>, n: nat): seq<string> {
    if |lines| <= n then lines else lines[|lines| - n..]
  }

  function Least(a: nat, b: nat): nat { if a < b then a else b }

  /** Whether the note has to follow block `i`; `diff` ends with the sentinel. */
  predicate NeedsNote(diff: seq<PatchChange>, i: nat)
    requires i < |diff| && |diff| > 1
  {
    var last := diff[|diff| - 2];
    && Open(diff[i])
    && (i == |diff| - 2 || (i + 3 == |diff| && (diff[i].kind == Added) != (last.kind == Added)))
  }

  // ---------------------------------------------------------------- the invariant

  const SENTINEL := PatchChange(Kept, "", Some([]))

  /** `part` is the stretch of `lines` from `a` up to `b`. */
  ghost predicate IsRange(lines: seq<string>, a: int, b: int, part: seq<string>) {
    0 <= a <= b <= |lines| && |part| == b - a && forall k :: 0 <= k < |part| ==> part[k] == lines[a + k]
  }

  ghost predicate OpenRange(s: Sides, st: Progress, hs: seq<Section>) {
    && SameGap(s, OldEnd(hs), NewEnd(hs), st.oldRangeStart - 1, st.newRangeStart - 1)
    && IsRange(s.oldLines, st.oldRangeStart - 1, st.oldLine - 1, Side(st.curRange, '-'))
    && IsRange(s.newLines, st.newRangeStart - 1, st.newLine - 1, Side(st.curRange, '+'))
    && MarkedBody(st.curRange)
  }

  ghost predicate ClosedRange(s: Sides, st: Progress, hs: seq<Section>) {
    && st.oldRangeStart == 0 && st.newRangeStart == 0 && st.curRange == []
    && SameGap(s, OldEnd(hs), NewEnd(hs), st.oldLine - 1, st.newLine - 1)
  }

  /** The context that the next change needs lies behind the last hunk. */
  ghost predicate HasContext(l: Layout, blocks: seq<PatchChange>, i: nat, hs: seq<Section>)
    requires i <= |blocks|
  {
    0 < i < |blocks| ==>
      && blocks[i - 1].kind == Kept && i < |l.os|
      && Least(|LinesOf(blocks[i - 1])|, 4) <= l.os[i] - OldEnd(hs)
  }

  ghost predicate Printed(l: Layout, blocks: seq<PatchChange>, i: nat, st: Progress, hs: seq<Section>) {
    && LaidOut(l, blocks) && i <= |blocks|
    && st.oldLine == l.os[i] + 1 && st.newLine == l.ns[i] + 1
    && st.ret == RenderAll(hs) && Chain(l.sides, hs)
    && (if st.oldRangeStart == 0 then ClosedRange(l.sides, st, hs) && HasContext(l, blocks, i, hs)
        else OpenRange(l.sides, st, hs))
    && NotesAre(blocks, i, st, Added, '+') && NotesAre(blocks, i, st, Removed, '-')
  }

  ghost predicate NotesAre(blocks: seq<PatchChange>, i: nat, st: Progress, kind: Kind, c: char)
    requires i <= |blocks|
  {
    Noted(st.ret, c) || Noted(st.curRange, c) <==> OpenAmong(blocks, kind, i)
  }

  /** `Printed`, in front of a change: the range is open. */
  ghost predicate Ready(l: Layout, blocks: seq<PatchChange>, i: nat, st: Progress, hs: seq<Section>) {
    && LaidOut(l, blocks) && i < |blocks|
    && st.oldLine == l.os[i] + 1 && st.newLine == l.ns[i] + 1
    && st.ret == RenderAll(hs) && Chain(l.sides, hs)
    && st.oldRangeStart > 0 && OpenRange(l.sides, st, hs)
    && NotesAre(blocks, i, st, Added, '+') && NotesAre(blocks, i, st, Removed, '-')
  }

  // ---------------------------------------------------------------- a change

  lemma {:induction false} GapPrefix(s: Sides, a: int, b: int, a': int, b': int, k: nat)
    requires SameGap(s, a, b, a', b') && k <= a' - a
    ensures SameGap(s, a, b, a' - k, b' - k)
  {
  }

  lemma {:induction false} GapExtend(s: Sides, a: int, b: int, a': int, b': int, a'': int, b'': int)
    requires SameGap(s, a, b, a', b') && SameGap(s, a', b', a'', b'')
    ensures SameGap(s, a, b, a'', b'')
  {
  }

  lemma {:induction false} GapOrder(s: Sides, a: int, b: int, a': int, b': int)
    requires SameGap(s, a, b, a', b')
    ensures 0 <= a <= a' <= |s.oldLines| && 0 <= b <= b' <= |s.newLines|
  {
  }

  lemma {:induction false} BlockRanges(l: Layout, blocks: seq<PatchChange>, i: nat)
    requires LaidOut(l, blocks) && i < |blocks|
    ensures var lines := LinesOf(blocks[i]);
      && (if blocks[i].kind == Added then l.os[i + 1] == l.os[i]
          else l.os[i + 1] == l.os[i] + |lines| && IsRange(l.sides.oldLines, l.os[i], l.os[i] + |lines|, lines))
      && (if blocks[i].kind == Removed then l.ns[i + 1] == l.ns[i]
          else l.ns[i + 1] == l.ns[i] + |lines| && IsRange(l.sides.newLines, l.ns[i], l.ns[i] + |lines|, lines))
      && lines != [] && AllFlat(lines)
  {
    hide LinesOf;
    assert Block(l, blocks, i);
  }

  lemma {:induction false} KeptGap(l: Layout, blocks: seq<PatchChange>, i: nat)
    requires LaidOut(l, blocks) && i < |blocks| && blocks[i].kind == Kept
    ensures SameGap(l.sides, l.os[i], l.ns[i], l.os[i + 1], l.ns[i + 1])
    ensures l.os[i + 1] - l.os[i] == |LinesOf(blocks[i])| == l.ns[i + 1] - l.ns[i]
    ensures AllFlat(LinesOf(blocks[i])) && LinesOf(blocks[i]) != []
  {
    hide LinesOf;
    BlockRanges(l, blocks, i);
    var lines := LinesOf(blocks[i]);
    forall k | l.os[i] <= k < l.os[i + 1]
      ensures l.sides.oldLines[k] == l.sides.newLines[k - l.os[i] + l.ns[i]]
    {
      var j := k - l.os[i];
      assert lines[j] == l.sides.oldLines[l.os[i] + j] && lines[j] == l.sides.newLines[l.ns[i] + j];
    }
  }

  lemma {:induction false} MarkedPrefixed(c: char, lines: seq<string>)
    requires AllFlat(lines) && (c == ' ' || c == '+' || c == '-')
    ensures MarkedBody(Prefixed(c, lines))
  {
    forall i | 0 <= i < |lines|
      ensures Marked(Prefixed(c, lines)[i])
    {
      assert Flat(lines[i]);
    }
  }

  lemma {:induction false} MarkedAppend(a: seq<string>, b: seq<string>)
    requires MarkedBody(a) && MarkedBody(b)
    ensures MarkedBody(a + b)
  {
  }

  lemma {:induction false} EmptyBody(c: char)
    ensures Side([], c) == [] && !Noted([], c) && MarkedBody([])
  {
  }

  lemma {:induction false} SameNotes(blocks: seq<PatchChange>, i: nat, st: Progress, st': Progress, kind: Kind, c: char)
    requires i <= |blocks| && NotesAre(blocks, i, st, kind, c) && st'.ret == st.ret
    requires Noted(st'.curRange, c) == Noted(st.curRange, c)
    ensures NotesAre(blocks, i, st', kind, c)
  {
  }

  lemma {:induction false} PassNotes(blocks: seq<PatchChange>, i: nat, st: Progress, kind: Kind, c: char)
    requires i < |blocks| && blocks[i].kind == Kept && kind != Kept
    ensures NotesAre(blocks, i, st, kind, c) <==> NotesAre(blocks, i + 1, st, kind, c)
  {
  }

  /** Opening a range starts with up to four lines of the kept block before the change. */
  lemma {:induction false} OpenKeeps(l: Layout, blocks: seq<PatchChange>, i: nat, st: Progress, hs: seq<Section>,
                                     cur: seq<string>)
    requires Printed(l, blocks, i, st, hs) && i < |blocks| && st.oldRangeStart == 0
    requires cur == if i > 0 then ContextLines(LastLines(LinesOf(blocks[i - 1]), 4)) else []
    ensures |cur| < st.oldLine && |cur| < st.newLine
    ensures Ready(l, blocks, i, st.(oldRangeStart := st.oldLine - |cur|, newRangeStart := st.newLine - |cur|,
      curRange := cur), hs)
  {
    hide Side, Noted, RenderAll, MarkedBody, Chain, LinesOf, Block, ContextLines, NotesAre, OpenAmong, OpenRange;
    hide ClosedRange;
    if i > 0 {
      OpenBehindKept(l, blocks, i, st, hs, cur);
    } else {
      OpenAtStart(l.sides, st, hs);
    }
    ClosedFacts(l.sides, st, hs);
    var st' := st.(oldRangeStart := st.oldLine - |cur|, newRangeStart := st.newLine - |cur|, curRange := cur);
    SameNotes(blocks, i, st, st', Added, '+');
    SameNotes(blocks, i, st, st', Removed, '-');
  }

  lemma {:induction false} ClosedFacts(s: Sides, st: Progress, hs: seq<Section>)
    requires ClosedRange(s, st, hs)
    ensures !Noted(st.curRange, '+') && !Noted(st.curRange, '-')
  {
    EmptyBody('+');
    EmptyBody('-');
  }

  lemma {:induction false} OpenAtStart(s: Sides, st: Progress, hs: seq<Section>)
    requires ClosedRange(s, st, hs) && st.oldLine > 0 && st.newLine > 0
    ensures OpenRange(s, st.(oldRangeStart := st.oldLine, newRangeStart := st.newLine, curRange := []), hs)
    ensures !Noted([], '+') && !Noted([], '-')
  {
    EmptyBody('+');
    EmptyBody('-');
  }

  lemma {:induction false} OpenBehindKept(l: Layout, blocks: seq<PatchChange>, i: nat, st: Progress, hs: seq<Section>,
                                          cur: seq<string>)
    requires LaidOut(l, blocks) && 0 < i < |blocks| && HasContext(l, blocks, i, hs)
    requires ClosedRange(l.sides, st, hs) && st.oldLine == l.os[i] + 1 && st.newLine == l.ns[i] + 1
    requires cur == ContextLines(LastLines(LinesOf(blocks[i - 1]), 4))
    ensures |cur| < st.oldLine && |cur| < st.newLine && !Noted(cur, '+') && !Noted(cur, '-')
    ensures OpenRange(l.sides,
                      st.(oldRangeStart := st.oldLine - |cur|, newRangeStart := st.newLine - |cur|, curRange := cur),
                        hs)
  {
    hide Side, Noted, MarkedBody, LinesOf, Block, ContextLines, SameGap, IsRange, LastLines;
    var last := LastLines(LinesOf(blocks[i - 1]), 4);
    KeptTail(l, blocks, i - 1);
    GapPrefix(l.sides, OldEnd(hs), NewEnd(hs), l.os[i], l.ns[i], |last|);
    ContextFacts(last);
  }

  lemma {:induction false} RangeTail(lines: seq<string>, a: nat, b: nat, part: seq<string>)
    requires IsRange(lines, a, b, part)
    ensures var tail := LastLines(part, 4);
      && |tail| == Least(|part|, 4) && |tail| <= b && IsRange(lines, b - |tail|, b, tail)
  {
  }

  lemma {:induction false} KeptTail(l: Layout, blocks: seq<PatchChange>, i: nat)
    requires LaidOut(l, blocks) && i < |blocks| && blocks[i].kind == Kept
    ensures var tail := LastLines(LinesOf(blocks[i]), 4);
      && AllFlat(tail) && |tail| == Least(|LinesOf(blocks[i])|, 4) && |tail| <= l.os[i + 1] && |tail| <= l.ns[i + 1]
      && IsRange(l.sides.oldLines, l.os[i + 1] - |tail|, l.os[i + 1], tail)
      && IsRange(l.sides.newLines, l.ns[i + 1] - |tail|, l.ns[i + 1], tail)
  {
    hide LinesOf, IsRange;
    BlockRanges(l, blocks, i);
    var lines := LinesOf(blocks[i]);
    RangeTail(l.sides.oldLines, l.os[i], l.os[i + 1], lines);
    RangeTail(l.sides.newLines, l.ns[i], l.ns[i + 1], lines);
  }

  lemma {:induction false} KeptHead(l: Layout, blocks: seq<PatchChange>, i: nat, n: nat)
    requires LaidOut(l, blocks) && i < |blocks| && blocks[i].kind == Kept && n <= |LinesOf(blocks[i])|
    ensures var head := LinesOf(blocks[i])[..n];
      && AllFlat(head)
      && IsRange(l.sides.oldLines, l.os[i], l.os[i] + n, head)
      && IsRange(l.sides.newLines, l.ns[i], l.ns[i] + n, head)
    ensures SameGap(l.sides, l.os[i] + n, l.ns[i] + n, l.os[i + 1], l.ns[i + 1])
  {
    hide LinesOf;
    BlockRanges(l, blocks, i);
    KeptGap(l, blocks, i);
  }

  lemma {:induction false} ContextFacts(lines: seq<string>)
    requires AllFlat(lines)
    ensures var cur := ContextLines(lines);
      |cur| == |lines| && MarkedBody(cur) && Side(cur, '+') == Side(cur, '-') == lines && !Noted(cur, '+')
        && !Noted(cur, '-')
  {
    SidePrefixed(' ', lines, '-');
    SidePrefixed(' ', lines, '+');
    NotedPrefixed(' ', lines, '+');
    NotedPrefixed(' ', lines, '-');
    MarkedPrefixed(' ', lines);
  }

  lemma {:induction false} NoteWhenOpen(l: Layout, blocks: seq<PatchChange>, i: nat)
    requires LaidOut(l, blocks) && i < |blocks| && blocks[i].kind != Kept
    ensures NeedsNote(blocks + [SENTINEL], i) == Open(blocks[i])
  {
    assert Block(l, blocks, i);
  }

  /** What a block prints behind whatever the range already holds: its lines, marked, and perhaps the note. */
  function BlockBody(cur: seq<string>, m: char, lines: seq<string>, note: bool): seq<string> {
    cur + Prefixed(m, lines) + if note then [NOTE] else []
  }

  lemma {:induction false} BodyMarked(cur: seq<string>, m: char, lines: seq<string>, note: bool)
    requires MarkedBody(cur) && AllFlat(lines) && (m == '+' || m == '-' || m == ' ')
    requires note ==> lines != []
    ensures MarkedBody(BlockBody(cur, m, lines, note))
  {
    MarkedPrefixed(m, lines);
    MarkedAppend(cur, Prefixed(m, lines));
  }

  lemma {:induction false} NoteIsNoLine(c: char)
    requires c == '+' || c == '-'
    ensures SideOf(NOTE, c) == []
  {
  }

  lemma {:induction false} BodySide(cur: seq<string>, m: char, lines: seq<string>, note: bool, c: char)
    requires c == '+' || c == '-'
    ensures Side(BlockBody(cur, m, lines, note), c) == Side(cur, c) + if m == c || m == ' ' then lines else []
  {
    hide Prefixed, SideOf, Side;
    var body := cur + Prefixed(m, lines);
    SideAppend(cur, Prefixed(m, lines), c);
    SidePrefixed(m, lines, c);
    if note {
      SideSnoc(body, NOTE, c);
      NoteIsNoLine(c);
      assert Side(body, c) + [] == Side(body, c);
    } else {
      assert body + [] == body;
    }
  }

  lemma {:induction false} BodyNoted(cur: seq<string>, m: char, lines: seq<string>, note: bool, c: char)
    requires m != '\\' && (note ==> lines != [])
    ensures Noted(BlockBody(cur, m, lines, note), c) <==> Noted(cur, c) || (note && m == c)
  {
    var body := cur + Prefixed(m, lines);
    NotedAppend(cur, Prefixed(m, lines), c);
    NotedPrefixed(m, lines, c);
    if note {
      assert (body + [NOTE])[..|body|] == body;
      assert body[|body| - 1] == [m] + lines[|lines| - 1];
    } else {
      assert body + [] == body;
    }
  }

  lemma {:induction false} ExtendRange(lines: seq<string>, a: int, b: int, part: seq<string>, b': int,
                                       more: seq<string>)
    requires IsRange(lines, a, b, part) && IsRange(lines, b, b', more)
    ensures IsRange(lines, a, b', part + more)
  {
  }

  lemma {:induction false} ExtendNothing(lines: seq<string>, a: int, b: int, part: seq<string>)
    requires IsRange(lines, a, b, part)
    ensures IsRange(lines, a, b, part + [])
  {
    assert part + [] == part;
  }

  /** The state after the lines of a block, marked with `m`, have been added to the open range. */
  function Extended(st: Progress, m: char, lines: seq<string>, note: bool): Progress {
    st.(curRange := BlockBody(st.curRange, m, lines, note),
        oldLine := st.oldLine + if m == '+' then 0 else |lines|,
        newLine := st.newLine + if m == '-' then 0 else |lines|)
  }

  lemma {:induction false} ExtendOpen(s: Sides, st: Progress, hs: seq<Section>, m: char, lines: seq<string>, note: bool)
    requires OpenRange(s, st, hs) && AllFlat(lines) && (note ==> lines != [])
    requires m == '+' || m == '-' || m == ' '
    requires m != '+' ==> IsRange(s.oldLines, st.oldLine - 1, st.oldLine - 1 + |lines|, lines)
    requires m != '-' ==> IsRange(s.newLines, st.newLine - 1, st.newLine - 1 + |lines|, lines)
    ensures OpenRange(s, Extended(st, m, lines, note), hs)
  {
    hide Side, Noted, MarkedBody, BlockBody, IsRange, SameGap;
    BodyMarked(st.curRange, m, lines, note);
    BodySide(st.curRange, m, lines, note, '+');
    BodySide(st.curRange, m, lines, note, '-');
    var a, b, x, y := st.oldRangeStart - 1, st.newRangeStart - 1, st.oldLine - 1, st.newLine - 1;
    if m != '+' {
      ExtendRange(s.oldLines, a, x, Side(st.curRange, '-'), x + |lines|, lines);
    } else {
      ExtendNothing(s.oldLines, a, x, Side(st.curRange, '-'));
    }
    if m != '-' {
      ExtendRange(s.newLines, b, y, Side(st.curRange, '+'), y + |lines|, lines);
    } else {
      ExtendNothing(s.newLines, b, y, Side(st.curRange, '+'));
    }
  }

  lemma {:induction false} ExtendNotes(st: Progress, m: char, lines: seq<string>, note: bool, c: char)
    requires m != '\\' && (note ==> lines != [])
    ensures Noted(Extended(st, m, lines, note).curRange, c) <==> Noted(st.curRange, c) || (note && m == c)
  {
    hide Noted, BlockBody;
    BodyNoted(st.curRange, m, lines, note, c);
  }

  /** Printing a change keeps the invariant. */
  lemma {:induction false} ChangeKeeps(l: Layout, blocks: seq<PatchChange>, i: nat, st: Progress, hs: seq<Section>)
    requires Ready(l, blocks, i, st, hs) && blocks[i].kind != Kept
    ensures Printed(l, blocks, i + 1,
                    Extended(st, if blocks[i].kind == Added then '+' else '-', LinesOf(blocks[i]),
                             NeedsNote(blocks + [SENTINEL], i)), hs)
  {
    hide Side, Noted, MarkedBody, BlockBody, LinesOf, NeedsNote, RenderAll, Chain, IsRange, OpenRange, SameGap, Block;
    BlockRanges(l, blocks, i);
    NoteWhenOpen(l, blocks, i);
    var m := if blocks[i].kind == Added then '+' else '-';
    ExtendOpen(l.sides, st, hs, m, LinesOf(blocks[i]), Open(blocks[i]));
    ExtendNotes(st, m, LinesOf(blocks[i]), Open(blocks[i]), '+');
    ExtendNotes(st, m, LinesOf(blocks[i]), Open(blocks[i]), '-');
  }

  /** Kept lines between two nearby changes are printed in full. */
  lemma {:induction false} OverlapKeeps(l: Layout, blocks: seq<PatchChange>, i: nat, st: Progress, hs: seq<Section>)
    requires Ready(l, blocks, i, st, hs) && blocks[i].kind == Kept
    ensures Printed(l, blocks, i + 1, Extended(st, ' ', LinesOf(blocks[i]), false), hs)
  {
    hide Side, Noted, MarkedBody, BlockBody, LinesOf, RenderAll, Chain, IsRange, OpenRange, SameGap, Block;
    BlockRanges(l, blocks, i);
    ExtendOpen(l.sides, st, hs, ' ', LinesOf(blocks[i]), false);
    ExtendNotes(st, ' ', LinesOf(blocks[i]), false, '+');
    ExtendNotes(st, ' ', LinesOf(blocks[i]), false, '-');
  }

  /** Kept lines outside any range are passed over. */
  lemma {:induction false} SkipKeeps(l: Layout, blocks: seq<PatchChange>, i: nat, st: Progress, hs: seq<Section>)
    requires Printed(l, blocks, i, st, hs) && i < |blocks| && blocks[i].kind == Kept && st.oldRangeStart == 0
    ensures var n := |LinesOf(blocks[i])|;
      Printed(l, blocks, i + 1, st.(oldLine := st.oldLine + n, newLine := st.newLine + n), hs)
  {
    hide LinesOf, Side, Noted, RenderAll, SameGap, Chain, Block, OpenAmong, OldEnd, NewEnd;
    KeptGap(l, blocks, i);
    GapExtend(l.sides, OldEnd(hs), NewEnd(hs), l.os[i], l.ns[i], l.os[i + 1], l.ns[i + 1]);
    GapOrder(l.sides, OldEnd(hs), NewEnd(hs), l.os[i], l.ns[i]);
    PassNotes(blocks, i, st, Added, '+');
    PassNotes(blocks, i, st, Removed, '-');
  }

  // ---------------------------------------------------------------- closing a range

  /** The hunk that the open range has become. */
  function Sealed(st: Progress): Section
    requires st.oldRangeStart <= st.oldLine && st.newRangeStart <= st.newLine
  {
    Section(Header(st.oldRangeStart, st.oldLine - st.oldRangeStart, st.newRangeStart, st.newLine - st.newRangeStart),
      st.curRange)
  }

  lemma {:induction false} SealFits(s: Sides, st: Progress, hs: seq<Section>)
    requires OpenRange(s, st, hs) && Chain(s, hs)
    ensures Chain(s, [Sealed(st)] + hs)
    ensures OldEnd([Sealed(st)] + hs) == st.oldLine - 1 && NewEnd([Sealed(st)] + hs) == st.newLine - 1
  {
    hide Side, MarkedBody, SectionFits, IsRange;
    SealedFits(s, st, hs);
    assert ([Sealed(st)] + hs)[1..] == hs;
  }

  lemma {:induction false} SealedFits(s: Sides, st: Progress, hs: seq<Section>)
    requires OpenRange(s, st, hs)
    ensures st.oldRangeStart <= st.oldLine && st.newRangeStart <= st.newLine && SectionFits(s, Sealed(st))
  {
    hide Side, MarkedBody;
  }

  lemma {:induction false} RenderNoted(hs: seq<Section>, h: Section, c: char)
    requires MarkedBody(h.body) && c != '@'
    ensures Noted(RenderAll([h] + hs), c) <==> Noted(RenderAll(hs), c) || Noted(h.body, c)
  {
    var line := RenderHeader(h.header);
    HeaderRoundTrip(h.header);
    assert ([h] + hs)[1..] == hs;
    NotedAppend(RenderAll(hs), [line] + h.body, c);
    NotedAppend([line], h.body, c);
    OneLineNoted(line, c);
  }

  lemma {:induction false} OneLineNoted(line: string, c: char)
    requires !StartsWithBackslash(line)
    ensures !Noted([line], c)
  {
    assert [line][..0] == [];
  }

  predicate StartsWithBackslash(line: string) { line != "" && line[0] == '\\' }

  /** The state after the range has been closed behind the context that it holds. */
  function Closed(st: Progress, skipped: nat): Progress
    requires st.oldRangeStart <= st.oldLine && st.newRangeStart <= st.newLine
  {
    Progress(0, 0, [], st.oldLine + skipped, st.newLine + skipped,
             st.ret + ([RenderHeader(Sealed(st).header)] + st.curRange))
  }

  lemma {:induction false} CloseNotes(blocks: seq<PatchChange>, i: nat, st: Progress, hs: seq<Section>, skipped: nat,
                                      kind: Kind, c: char)
    requires i <= |blocks| && MarkedBody(st.curRange) && st.ret == RenderAll(hs) && c != '@'
    requires st.oldRangeStart <= st.oldLine && st.newRangeStart <= st.newLine
    requires NotesAre(blocks, i, st, kind, c)
    ensures Closed(st, skipped).ret == RenderAll([Sealed(st)] + hs)
    ensures NotesAre(blocks, i, Closed(st, skipped), kind, c)
  {
    RenderNoted(hs, Sealed(st), c);
    assert ([Sealed(st)] + hs)[1..] == hs;
    EmptyBody(c);
  }

  lemma {:induction false} RangeFacts(s: Sides, st: Progress, hs: seq<Section>)
    requires OpenRange(s, st, hs)
    ensures MarkedBody(st.curRange)
    ensures 0 < st.oldRangeStart <= st.oldLine && 0 < st.newRangeStart <= st.newLine
  {
  }

  /** Closing the range at a kept block keeps the invariant. */
  lemma {:induction false} CloseKeeps(l: Layout, blocks: seq<PatchChange>, i: nat, st: Progress, hs: seq<Section>,
                                      note: bool)
    requires Ready(l, blocks, i, st, hs) && blocks[i].kind == Kept
    requires |LinesOf(blocks[i])| > 8 || i == |blocks| - 1
    ensures var lines := LinesOf(blocks[i]);
      var n := Least(|lines|, 4);
      var st1 := Extended(st, ' ', lines[..n], note);
      && st1.oldRangeStart <= st1.oldLine && st1.newRangeStart <= st1.newLine
      && Printed(l, blocks, i + 1, Closed(st1, |lines| - n), [Sealed(st1)] + hs)
  {
    hide Side, Noted, MarkedBody, BlockBody, LinesOf, RenderAll, Chain, RenderHeader, Block, NotesAre, OpenAmong;
    hide SameGap, OpenRange, OldEnd, NewEnd, IsRange;
    KeptGap(l, blocks, i);
    var lines := LinesOf(blocks[i]);
    var n := Least(|lines|, 4);
    KeptHead(l, blocks, i, n);
    var st1 := Extended(st, ' ', lines[..n], note);
    ExtendOpen(l.sides, st, hs, ' ', lines[..n], note);
    RangeFacts(l.sides, st, hs);
    RangeFacts(l.sides, st1, hs);
    SealFits(l.sides, st1, hs);
    CloseNotesKept(blocks, i, st, hs, lines[..n], note, |lines| - n, Added, '+');
    CloseNotesKept(blocks, i, st, hs, lines[..n], note, |lines| - n, Removed, '-');
  }

  lemma {:induction false} CloseNotesKept(blocks: seq<PatchChange>, i: nat, st: Progress, hs: seq<Section>,
                                          lines: seq<string>, note: bool, skipped: nat, kind: Kind, c: char)
    requires i < |blocks| && blocks[i].kind == Kept && kind != Kept && (c == '+' || c == '-')
    requires st.ret == RenderAll(hs) && NotesAre(blocks, i, st, kind, c)
    requires MarkedBody(st.curRange) && AllFlat(lines) && (note ==> lines != [])
    requires st.oldRangeStart <= st.oldLine && st.newRangeStart <= st.newLine
    ensures var st1 := Extended(st, ' ', lines, note);
      && Closed(st1, skipped).ret == RenderAll([Sealed(st1)] + hs)
      && NotesAre(blocks, i + 1, Closed(st1, skipped), kind, c)
  {
    hide Noted, MarkedBody, RenderAll, BlockBody, NotesAre, RenderHeader;
    var st1 := Extended(st, ' ', lines, note);
    ExtendNotes(st, ' ', lines, note, c);
    BodyMarked(st.curRange, ' ', lines, note);
    SameNotes(blocks, i, st, st1, kind, c);
    CloseNotes(blocks, i, st1, hs, skipped, kind, c);
    PassNotes(blocks, i, Closed(st1, skipped), kind, c);
  }

  /** Closing the range at the sentinel, behind the last block. */
  lemma {:induction false} CloseLastKeeps(l: Layout, blocks: seq<PatchChange>, st: Progress, hs: seq<Section>)
    requires Printed(l, blocks, |blocks|, st, hs) && st.oldRangeStart != 0
    ensures st.oldRangeStart <= st.oldLine && st.newRangeStart <= st.newLine
    ensures Printed(l, blocks, |blocks|, Closed(st, 0), [Sealed(st)] + hs)
  {
    hide Side, Noted, MarkedBody, LinesOf, RenderAll, Chain, RenderHeader;
    SealFits(l.sides, st, hs);
    CloseNotes(blocks, |blocks|, st, hs, 0, Added, '+');
    CloseNotes(blocks, |blocks|, st, hs, 0, Removed, '-');
  }

  // ---------------------------------------------------------------- how much context is shown

  /** What the open range has shown so far. */
  ghost predicate OpenContext(st: Progress, hs: seq<Section>) {
    && Dense(st.curRange) && Lead(st.curRange) <= 4
    && (Lead(st.curRange) < 4 ==> st.oldRangeStart == 1)
    && (hs != [] ==> OldEnd(hs) < st.oldRangeStart - 1)
  }

  /** Between ranges, enough kept lines lie behind the last hunk for it and for the next. */
  ghost predicate ClosedContext(l: Layout, blocks: seq<PatchChange>, i: nat, hs: seq<Section>)
    requires i <= |blocks| && i < |l.os|
  {
    && (hs == [] ==> i <= 1)
    && (i == 1 ==> blocks[0].kind == Kept)
    && (hs != [] && i < |blocks| ==> 0 < i && |LinesOf(blocks[i - 1])| > 8 && l.os[i] - OldEnd(hs) > 4)
  }

  /** The hunks so far, and the open range or what lies behind the last hunk. */
  ghost predicate Around(l: Layout, blocks: seq<PatchChange>, i: nat, st: Progress, hs: seq<Section>) {
    && i <= |blocks| && i < |l.os| && Spaced(l.sides, hs)
    && (if st.oldRangeStart == 0 then ClosedContext(l, blocks, i, hs)
        else
          && OpenContext(st, hs) && HasChange(st.curRange) && i > 0
          && Trail(st.curRange) <= (if blocks[i - 1].kind == Kept then 8 else 0)
          && (i == |blocks| ==> blocks[i - 1].kind != Kept))
  }

  /** The range is open in front of a change. */
  ghost predicate AroundChange(l: Layout, st: Progress, hs: seq<Section>) {
    st.oldRangeStart != 0 && Spaced(l.sides, hs) && OpenContext(st, hs)
  }

  lemma {:induction false} AroundFacts(l: Layout, blocks: seq<PatchChange>, i: nat, st: Progress, hs: seq<Section>)
    requires Around(l, blocks, i, st, hs)
    ensures Spaced(l.sides, hs) && (st.oldRangeStart != 0 ==> AroundChange(l, st, hs))
  {
  }

  lemma {:induction false} OpensAround(l: Layout, blocks: seq<PatchChange>, i: nat, st: Progress, hs: seq<Section>,
                                       cur: seq<string>)
    requires LaidOut(l, blocks) && Around(l, blocks, i, st, hs) && i < |blocks| && st.oldRangeStart == 0
    requires st.oldLine == l.os[i] + 1
    requires cur == if i > 0 then ContextLines(LastLines(LinesOf(blocks[i - 1]), 4)) else []
    requires |cur| < st.oldLine && |cur| < st.newLine
    ensures AroundChange(l, st.(oldRangeStart := st.oldLine - |cur|, newRangeStart := st.newLine - |cur|,
      curRange := cur), hs)
  {
    hide Block, Spaced, Dense, Lead, Trail, HasChange, LinesOf, Prefixed;
    NoContext();
    if i > 0 {
      var last := LastLines(LinesOf(blocks[i - 1]), 4);
      MoreContext([], last);
      assert [] + Prefixed(' ', last) == cur;
      if i == 1 {
        BlockRanges(l, blocks, 0);
      }
    }
  }

  lemma {:induction false} ChangeAround(l: Layout, blocks: seq<PatchChange>, i: nat, st: Progress, hs: seq<Section>,
                                        note: bool)
    requires LaidOut(l, blocks) && AroundChange(l, st, hs) && i < |blocks| && blocks[i].kind != Kept
    ensures Around(l, blocks, i + 1,
                   Extended(st, if blocks[i].kind == Added then '+' else '-', LinesOf(blocks[i]), note), hs)
  {
    hide Spaced, Dense, Lead, Trail, HasChange, LinesOf, Prefixed;
    assert Block(l, blocks, i);
    hide Block;
    var m := if blocks[i].kind == Added then '+' else '-';
    MoreChanges(st.curRange, m, LinesOf(blocks[i]));
    var body := st.curRange + Prefixed(m, LinesOf(blocks[i]));
    MoreNotes(body, NOTE);
    assert body + [] == body;
  }

  lemma {:induction false} AfterRange(l: Layout, blocks: seq<PatchChange>, i: nat, st: Progress, hs: seq<Section>)
    requires LaidOut(l, blocks) && Around(l, blocks, i, st, hs) && i < |blocks| && st.oldRangeStart != 0
    requires blocks[i].kind == Kept
    ensures AroundChange(l, st, hs) && HasChange(st.curRange) && Lead(st.curRange) < |st.curRange|
    ensures Trail(st.curRange) == 0
  {
    hide Spaced, Dense, Lead, Trail, HasChange, LinesOf;
    assert Block(l, blocks, i);
    LeadOfChanged(st.curRange);
  }

  lemma {:induction false} JoinsAround(l: Layout, blocks: seq<PatchChange>, i: nat, st: Progress, hs: seq<Section>)
    requires LaidOut(l, blocks) && Around(l, blocks, i, st, hs) && i < |blocks| - 1 && st.oldRangeStart != 0
    requires blocks[i].kind == Kept && |LinesOf(blocks[i])| <= 8
    ensures Around(l, blocks, i + 1, Extended(st, ' ', LinesOf(blocks[i]), false), hs)
  {
    hide Block, Spaced, Dense, Lead, Trail, HasChange, LinesOf, Prefixed;
    AfterRange(l, blocks, i, st, hs);
    MoreContext(st.curRange, LinesOf(blocks[i]));
    var body := st.curRange + Prefixed(' ', LinesOf(blocks[i]));
    assert body + [] == body;
  }

  lemma {:induction false} SkipsAround(l: Layout, blocks: seq<PatchChange>, i: nat, st: Progress, hs: seq<Section>,
                                       st': Progress)
    requires LaidOut(l, blocks) && Around(l, blocks, i, st, hs) && i < |blocks| && st.oldRangeStart == 0
    requires blocks[i].kind == Kept && st'.oldRangeStart == 0 && (i > 0 ==> blocks[i - 1].kind == Kept)
    ensures Around(l, blocks, i + 1, st', hs)
  {
    hide Spaced, LinesOf;
    assert Block(l, blocks, i);
  }

  lemma {:induction false} ClosesAround(l: Layout, blocks: seq<PatchChange>, i: nat, st: Progress, hs: seq<Section>,
                                        note: bool)
    requires LaidOut(l, blocks) && Around(l, blocks, i, st, hs) && i < |blocks| && st.oldRangeStart != 0
    requires blocks[i].kind == Kept && (|LinesOf(blocks[i])| > 8 || i == |blocks| - 1)
    requires st.oldLine == l.os[i] + 1
    ensures var lines := LinesOf(blocks[i]);
      var n := Least(|lines|, 4);
      var st1 := Extended(st, ' ', lines[..n], note);
      && st1.oldRangeStart <= st1.oldLine && st1.newRangeStart <= st1.newLine ==>
        Around(l, blocks, i + 1, Closed(st1, |lines| - n), [Sealed(st1)] + hs)
  {
    hide Block, Spaced, Dense, Lead, Trail, HasChange, LinesOf, Prefixed;
    AfterRange(l, blocks, i, st, hs);
    BlockRanges(l, blocks, i);
    var lines := LinesOf(blocks[i]);
    var n := Least(|lines|, 4);
    MoreContext(st.curRange, lines[..n]);
    var body := st.curRange + Prefixed(' ', lines[..n]);
    MoreNotes(body, NOTE);
    assert body + [] == body;
    var st1 := Extended(st, ' ', lines[..n], note);
    if st1.oldRangeStart <= st1.oldLine && st1.newRangeStart <= st1.newLine {
      SealSpaced(l.sides, st1, hs);
    }
  }

  lemma {:induction false} SealSpaced(s: Sides, st: Progress, hs: seq<Section>)
    requires Spaced(s, hs) && OpenContext(st, hs) && HasChange(st.curRange) && Trail(st.curRange) <= 4
    requires Trail(st.curRange) < 4 ==> st.oldLine - 1 == |s.oldLines|
    requires st.oldRangeStart <= st.oldLine && st.newRangeStart <= st.newLine
    ensures Spaced(s, [Sealed(st)] + hs)
  {
    hide Dense, Lead, Trail, HasChange;
    assert ([Sealed(st)] + hs)[1..] == hs;
  }

  lemma {:induction false} EndsAround(l: Layout, blocks: seq<PatchChange>, st: Progress, hs: seq<Section>)
    requires LaidOut(l, blocks) && Around(l, blocks, |blocks|, st, hs) && st.oldRangeStart != 0
    requires st.oldLine == l.os[|blocks|] + 1
    requires st.oldRangeStart <= st.oldLine && st.newRangeStart <= st.newLine
    ensures Spaced(l.sides, [Sealed(st)] + hs)
  {
    hide Block, Spaced, Dense, Lead, Trail, HasChange, LinesOf;
    SealSpaced(l.sides, st, hs);
  }

  // ---------------------------------------------------------------- the steps of the loop

  ghost predicate Going(l: Layout, blocks: seq<PatchChange>, i: nat, st: Progress, hs: seq<Section>) {
    Printed(l, blocks, i, st, hs) && Around(l, blocks, i, st, hs)
  }

  ghost predicate Starting(l: Layout, blocks: seq<PatchChange>, i: nat, st: Progress, hs: seq<Section>) {
    Ready(l, blocks, i, st, hs) && AroundChange(l, st, hs)
  }

  lemma {:induction false} Opens(l: Layout, blocks: seq<PatchChange>, i: nat, st: Progress, hs: seq<Section>,
                                 cur: seq<string>)
    requires Going(l, blocks, i, st, hs) && i < |blocks|
    requires st.oldRangeStart == 0 ==> cur == if i > 0 then ContextLines(LastLines(LinesOf(blocks[i - 1]), 4)) else []
    ensures st.oldRangeStart != 0 ==> Starting(l, blocks, i, st, hs)
    ensures st.oldRangeStart == 0 ==>
      && |cur| < st.oldLine && |cur| < st.newLine
      && Starting(l, blocks, i, st.(oldRangeStart := st.oldLine - |cur|, newRangeStart := st.newLine - |cur|,
        curRange := cur), hs)
  {
    hide LinesOf, ContextLines, Chain, RenderAll, Around, AroundChange, NotesAre, OpenRange, ClosedRange, HasContext;
    hide Block;
    AroundFacts(l, blocks, i, st, hs);
    if st.oldRangeStart == 0 {
      OpenKeeps(l, blocks, i, st, hs, cur);
      OpensAround(l, blocks, i, st, hs, cur);
    }
  }

  lemma {:induction false} Changes(l: Layout, blocks: seq<PatchChange>, i: nat, st: Progress, hs: seq<Section>)
    requires Starting(l, blocks, i, st, hs) && blocks[i].kind != Kept
    ensures Going(l, blocks, i + 1,
                  Extended(st, if blocks[i].kind == Added then '+' else '-', LinesOf(blocks[i]),
                           NeedsNote(blocks + [SENTINEL], i)), hs)
  {
    hide Extended, LinesOf, Chain, RenderAll, Around, AroundChange, Printed, NeedsNote, NotesAre, OpenRange, Block;
    ChangeKeeps(l, blocks, i, st, hs);
    ChangeAround(l, blocks, i, st, hs, NeedsNote(blocks + [SENTINEL], i));
  }

  lemma {:induction false} Joins(l: Layout, blocks: seq<PatchChange>, i: nat, st: Progress, hs: seq<Section>)
    requires Going(l, blocks, i, st, hs) && i < |blocks| - 1 && st.oldRangeStart != 0
    requires blocks[i].kind == Kept && |LinesOf(blocks[i])| <= 8
    ensures Going(l, blocks, i + 1, Extended(st, ' ', LinesOf(blocks[i]), false), hs)
  {
    hide Extended, LinesOf, Chain, RenderAll, Around, AroundChange, NotesAre, OpenRange, Block;
    OverlapKeeps(l, blocks, i, st, hs);
    JoinsAround(l, blocks, i, st, hs);
  }

  lemma {:induction false} Closes(l: Layout, blocks: seq<PatchChange>, i: nat, st: Progress, hs: seq<Section>,
                                  note: bool)
    requires Going(l, blocks, i, st, hs) && i < |blocks| && st.oldRangeStart != 0
    requires blocks[i].kind == Kept && (|LinesOf(blocks[i])| > 8 || i == |blocks| - 1)
    ensures var lines := LinesOf(blocks[i]);
      var n := Least(|lines|, 4);
      var st1 := Extended(st, ' ', lines[..n], note);
      && st1.oldRangeStart <= st1.oldLine && st1.newRangeStart <= st1.newLine
      && Going(l, blocks, i + 1, Closed(st1, |lines| - n), [Sealed(st1)] + hs)
  {
    hide Extended, LinesOf, Chain, RenderAll, Around, AroundChange, NotesAre, OpenRange, Block, Closed, Sealed;
    CloseKeeps(l, blocks, i, st, hs, note);
    ClosesAround(l, blocks, i, st, hs, note);
  }

  lemma {:induction false} Skips(l: Layout, blocks: seq<PatchChange>, i: nat, st: Progress, hs: seq<Section>)
    requires Going(l, blocks, i, st, hs) && i < |blocks| && blocks[i].kind == Kept && st.oldRangeStart == 0
    ensures var n := |LinesOf(blocks[i])|;
      Going(l, blocks, i + 1, st.(oldLine := st.oldLine + n, newLine := st.newLine + n), hs)
  {
    hide LinesOf, Chain, RenderAll, Around, NotesAre, OpenRange, ClosedRange, Block;
    var n := |LinesOf(blocks[i])|;
    SkipKeeps(l, blocks, i, st, hs);
    SkipsAround(l, blocks, i, st, hs, st.(oldLine := st.oldLine + n, newLine := st.newLine + n));
  }

  /** What the finished loop has printed. */
  ghost predicate Done(l: Layout, blocks: seq<PatchChange>, st: Progress, hs: seq<Section>) {
    Printed(l, blocks, |blocks|, st, hs) && st.oldRangeStart == 0 && Spaced(l.sides, hs)
  }

  /** At the sentinel an open range is closed behind the last block. */
  lemma {:induction false} Ends(l: Layout, blocks: seq<PatchChange>, st: Progress, hs: seq<Section>)
    requires Going(l, blocks, |blocks|, st, hs)
    ensures st.oldRangeStart == 0 ==> Done(l, blocks, st, hs)
    ensures st.oldRangeStart != 0 ==>
      && st.oldRangeStart <= st.oldLine && st.newRangeStart <= st.newLine
      && Done(l, blocks, Closed(st, 0), [Sealed(st)] + hs)
    ensures var st' := Extended(st, ' ', [], false);
      st' == st && LinesOf(SENTINEL) == [] && (|blocks| > 0 ==> !NeedsNote(blocks + [SENTINEL], |blocks|))
  {
    hide Chain, RenderAll, Around, NotesAre, OpenRange, ClosedRange, Block, Spaced;
    AroundFacts(l, blocks, |blocks|, st, hs);
    SentinelLines(blocks + [SENTINEL], |blocks|, st);
    if st.oldRangeStart != 0 {
      CloseLastKeeps(l, blocks, st, hs);
      EndsAround(l, blocks, st, hs);
    }
  }

  // ---------------------------------------------------------------- the loop

  /** The hunk lines of a patch. The result lists a chain of hunks that accounts for everything between the two
      texts, and carries a note exactly where a change lacks its newline. */
  method PrintHunks(blocks: seq<PatchChange>, ghost l: Layout) returns (ret: seq<string>, ghost hs: seq<Section>)
    requires LaidOut(l, blocks)
    ensures ret == RenderAll(hs) && Chain(l.sides, hs)
    ensures SameGap(l.sides, OldEnd(hs), NewEnd(hs), |l.sides.oldLines|, |l.sides.newLines|)
    ensures Noted(ret, '+') <==> OpenAmong(blocks, Added, |blocks|)
    ensures Noted(ret, '-') <==> OpenAmong(blocks, Removed, |blocks|)
    ensures (forall i :: 0 <= i < |blocks| ==> blocks[i].kind == Kept) ==> hs == []
    ensures Spaced(l.sides, hs)
  {
    hide Chain, RenderAll, Noted, OpenAmong, Block, LinesOf, Extended, Sealed, NeedsNote, SameGap, Closed;
    hide Going, Starting, Done, Spaced;
    var diff := blocks + [SENTINEL];
    var st := Progress(0, 0, [], 1, 1, []);
    hs := [];
    StartPrinted(l, blocks);
    for i := 0 to |diff|
      invariant if i <= |blocks| then Going(l, blocks, i, st, hs) else Done(l, blocks, st, hs)
      invariant (forall j :: 0 <= j < |blocks| ==> blocks[j].kind == Kept) ==> hs == [] && st.oldRangeStart == 0
    {
      var current := diff[i];
      var lines := LinesOf(current);
      if i == |blocks| {
        Ends(l, blocks, st, hs);
      }
      if current.kind != Kept {
        var cur := if i > 0 then ContextLines(LastLines(LinesOf(diff[i - 1]), 4)) else [];
        Opens(l, blocks, i, st, hs, cur);
        if st.oldRangeStart == 0 {
          st := st.(oldRangeStart := st.oldLine - |cur|, newRangeStart := st.newLine - |cur|, curRange := cur);
        }
        Changes(l, blocks, i, st, hs);
        st := Extended(st, if current.kind == Added then '+' else '-', lines, NeedsNote(diff, i));
      } else if st.oldRangeStart != 0 {
        if |lines| <= 8 && i < |diff| - 2 {
          Joins(l, blocks, i, st, hs);
          st := Extended(st, ' ', lines, false);
        } else {
          var contextSize := Least(|lines|, 4);
          var note := |lines| <= 4 && NeedsNote(diff, i);
          if i < |blocks| {
            Closes(l, blocks, i, st, hs, note);
          }
          var closing := Extended(st, ' ', lines[..contextSize], note);
          hs := [Sealed(closing)] + hs;
          st := Closed(closing, |lines| - contextSize);
        }
      } else if i < |blocks| {
        Skips(l, blocks, i, st, hs);
        st := st.(oldLine := st.oldLine + |lines|, newLine := st.newLine + |lines|);
      }
    }
    FinallyPrinted(l, blocks, st, hs);
    ret := st.ret;
  }

  lemma {:induction false} StartPrinted(l: Layout, blocks: seq<PatchChange>)
    requires LaidOut(l, blocks)
    ensures Going(l, blocks, 0, Progress(0, 0, [], 1, 1, []), [])
  {
  }

  lemma {:induction false} SentinelLines(diff: seq<PatchChange>, i: nat, st: Progress)
    requires |diff| > 1 && i == |diff| - 1 && diff[i] == SENTINEL
    ensures LinesOf(diff[i]) == [] && !NeedsNote(diff, i)
    ensures Extended(st, ' ', [], false) == st
  {
    assert Prefixed(' ', []) == [];
    assert st.curRange + [] + [] == st.curRange;
  }

  lemma {:induction false} FinallyPrinted(l: Layout, blocks: seq<PatchChange>, st: Progress, hs: seq<Section>)
    requires Done(l, blocks, st, hs)
    ensures st.ret == RenderAll(hs) && Chain(l.sides, hs) && Spaced(l.sides, hs)
    ensures SameGap(l.sides, OldEnd(hs), NewEnd(hs), |l.sides.oldLines|, |l.sides.newLines|)
    ensures Noted(st.ret, '+') <==> OpenAmong(blocks, Added, |blocks|)
    ensures Noted(st.ret, '-') <==> OpenAmong(blocks, Removed, |blocks|)
  {
  }
}
