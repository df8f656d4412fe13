/** The hunks that a patch lists, and what it means for a list of them to describe a change of one list of lines
    into another. Lists of hunks have the newest one at the front. */
module PatchSections {
  import opened Wrappers
  import opened Text
  import opened UnifiedFormat
  import opened PatchApply

  datatype Section = Section(header: Header, body: seq<string>)

  function RenderAll(hs: seq<Section>): seq<string> {
    if hs == [] then [] else RenderAll(hs[1..]) + ([RenderHeader(hs[0].header)] + hs[0].body)
  }

  function Prefixed(c: char, lines: seq<string>): (r: seq<string>)
    ensures |r| == |lines|
  {
    seq(|lines|, i requires 0 <= i < |lines| => [c] + lines[i])
  }

  /** The lines of one side of a body: those marked with `c` and the context, without their marks. */
  function Side(body: seq<string>, c: char): seq<string> {
    if body == [] then [] else Side(body[..|body| - 1], c) + SideOf(body[|body| - 1], c)
  }

  function SideOf(line: string, c: char): seq<string> {
    if StartsWith(line, c) || StartsWith(line, ' ') then [line[1..]] else []
  }

  /** Some "no newline" note directly follows a line marked with `c`. */
  predicate Noted(lines: seq<string>, c: char) {
    lines != [] &&
    var init := lines[..|lines| - 1];
    (Noted(init, c) || (StartsWith(lines[|lines| - 1], '\\') && StartsWith(LastOf(init), c)))
  }

  predicate Marked(line: string) {
    line != "" && Flat(line) && (line[0] == ' ' || line[0] == '+' || line[0] == '-' || line[0] == '\\')
  }

  ghost predicate MarkedBody(body: seq<string>) {
    && (forall i :: 0 <= i < |body| ==> Marked(body[i]))
    && (body != [] ==> !StartsWith(body[0], '\\'))
  }

  lemma {:induction false} SideSnoc(body: seq<string>, line: string, c: char)
    ensures Side(body + [line], c) == Side(body, c) + SideOf(line, c)
  {
    assert (body + [line])[..|body|] == body;
  }

  lemma {:induction false} SideAppend(a: seq<string>, b: seq<string>, c: char)
    ensures Side(a + b, c) == Side(a, c) + Side(b, c)
  {
    hide Side, SideOf;
    if b == [] {
      assert a + b == a && Side(b, c) == [] by { NothingOnSide(c); }
    } else {
      var n := |b| - 1;
      SideAppend(a, b[..n], c);
      SideSnoc(b[..n], b[n], c);
      SideSnoc(a + b[..n], b[n], c);
      assert b[..n] + [b[n]] == b && a + b[..n] + [b[n]] == a + b;
    }
  }

  lemma {:induction false} NothingOnSide(c: char)
    ensures Side([], c) == []
  {
  }

  lemma {:induction false} SidePrefixed(m: char, lines: seq<string>, c: char)
    ensures Side(Prefixed(m, lines), c) == if m == c || m == ' ' then lines else []
  {
    if lines != [] {
      var n := |lines| - 1;
      SidePrefixed(m, lines[..n], c);
      assert Prefixed(m, lines)[..n] == Prefixed(m, lines[..n]);
      assert ([m] + lines[n])[1..] == lines[n];
      assert lines == lines[..n] + [lines[n]];
    }
  }

  lemma {:induction false} NotedAppend(a: seq<string>, b: seq<string>, c: char)
    requires b != [] ==> !StartsWith(b[0], '\\')
    ensures Noted(a + b, c) <==> Noted(a, c) || Noted(b, c)
  {
    if b == [] {
      assert a + b == a;
    } else {
      var n := |b| - 1;
      NotedAppend(a, b[..n], c);
      assert (a + b)[..|a| + n] == a + b[..n];
    }
  }

  lemma {:induction false} NotedPrefixed(m: char, lines: seq<string>, c: char)
    requires m != '\\'
    ensures !Noted(Prefixed(m, lines), c)
  {
    if lines != [] {
      var n := |lines| - 1;
      NotedPrefixed(m, lines[..n], c);
      assert Prefixed(m, lines)[..n] == Prefixed(m, lines[..n]);
    }
  }

  // ---------------------------------------------------------------- reading the hunks back

  function ToHunk(h: Section): Hunk { Hunk(Some(h.header), Side(h.body, '-'), Side(h.body, '+')) }

  function ToHunks(hs: seq<Section>): seq<Hunk> { if hs == [] then [] else [ToHunk(hs[0])] + ToHunks(hs[1..]) }

  ghost predicate AllMarked(hs: seq<Section>) { forall i :: 0 <= i < |hs| ==> MarkedBody(hs[i].body) }

  lemma {:induction false} ParseFlags(lines: seq<string>)
    ensures Parse(lines).remEOFNL == Noted(lines, '+')
    ensures Parse(lines).addEOFNL == Noted(lines, '-')
  {
    hide FindHeader, AddTo;
    if lines != [] {
      ParseFlags(lines[..|lines| - 1]);
    }
  }

  lemma {:induction false} ParseMarked(st: Parsed, prev: string, line: string, h: Hunk, rest: seq<Hunk>)
    requires Marked(line) && st.hunks == [h] + rest
    ensures ParseLine(st, prev, line).hunks
         == [Hunk(h.header, h.removed + SideOf(line, '-'), h.added + SideOf(line, '+'))] + rest
  {
    var minus, plus := SideOf(line, '-'), SideOf(line, '+');
    assert h.removed + [] == h.removed && h.added + [] == h.added;
    var h' := Hunk(h.header, h.removed + minus, h.added + plus);
    assert ([h] + rest)[0 := h'] == [h'] + rest;
  }

  /** Parsing a body after a header line extends the newest hunk by the two sides of the body. */
  lemma {:induction false} ParseBody(lines: seq<string>, h: Header, body: seq<string>)
    requires MarkedBody(body)
    ensures Parse(lines + ([RenderHeader(h)] + body)).hunks
         == [Hunk(Some(h), Side(body, '-'), Side(body, '+'))] + Parse(lines).hunks
  {
    hide RenderHeader, FindHeader, ParseLine, SideOf, Noted;
    var all := lines + ([RenderHeader(h)] + body);
    var n := |all| - 1;
    if body == [] {
      assert all[..n] == lines;
      ParseHeaderLine(Parse(lines), LastOf(lines), h);
    } else {
      var k := |body| - 1;
      assert Marked(body[k]);
      ParseBody(lines, h, body[..k]);
      assert all[..n] == lines + ([RenderHeader(h)] + body[..k]);
      var hunk := Hunk(Some(h), Side(body[..k], '-'), Side(body[..k], '+'));
      ParseMarked(Parse(all[..n]), LastOf(all[..n]), body[k], hunk, Parse(lines).hunks);
    }
  }

  lemma {:induction false} ParseHeaderLine(st: Parsed, prev: string, h: Header)
    ensures ParseLine(st, prev, RenderHeader(h)).hunks == [Hunk(Some(h), [], [])] + st.hunks
  {
    HeaderRoundTrip(h);
  }

  /** The parser recovers exactly the hunks that were printed. */
  lemma {:induction false} ParseRendered(hs: seq<Section>)
    requires AllMarked(hs)
    ensures Parse(RenderAll(hs)).hunks == ToHunks(hs)
  {
    if hs != [] {
      ParseRendered(hs[1..]);
      ParseBody(RenderAll(hs[1..]), hs[0].header, hs[0].body);
    }
  }

  // ---------------------------------------------------------------- describing a change

  /** The two lists of lines that a patch relates. */
  datatype Sides = Sides(oldLines: seq<string>, newLines: seq<string>)

  /** The stretch between two positions is the same on both sides. */
  ghost predicate SameGap(s: Sides, a: int, b: int, a': int, b': int) {
    && 0 <= a <= a' <= |s.oldLines| && 0 <= b <= b' <= |s.newLines| && a' - a == b' - b
    && forall k :: a <= k < a' ==> s.oldLines[k] == s.newLines[k - a + b]
  }

  /** A hunk lists the lines of both ranges that its header names. */
  ghost predicate SectionFits(s: Sides, h: Section) {
    var a, b := h.header.oldStart - 1, h.header.newStart - 1;
    && 0 <= a && a + h.header.oldLength <= |s.oldLines|
    && 0 <= b && b + h.header.newLength <= |s.newLines|
    && Side(h.body, '-') == s.oldLines[a..a + h.header.oldLength]
    && Side(h.body, '+') == s.newLines[b..b + h.header.newLength]
    && MarkedBody(h.body)
  }

  function OldEnd(hs: seq<Section>): int {
    if hs == [] then 0 else hs[0].header.oldStart - 1 + hs[0].header.oldLength
  }

  function NewEnd(hs: seq<Section>): int {
    if hs == [] then 0 else hs[0].header.newStart - 1 + hs[0].header.newLength
  }

  /** The hunks are in order and disjoint, every one fits, and what lies between them is unchanged. */
  ghost predicate Chain(s: Sides, hs: seq<Section>) {
    hs == [] ||
    (&& SectionFits(s, hs[0])
     && Chain(s, hs[1..])
     && SameGap(s, OldEnd(hs[1..]), NewEnd(hs[1..]), hs[0].header.oldStart - 1, hs[0].header.newStart - 1))
  }

  lemma {:induction false} ChainMarked(s: Sides, hs: seq<Section>)
    requires Chain(s, hs)
    ensures AllMarked(hs)
  {
    if hs != [] {
      ChainMarked(s, hs[1..]);
      forall i | 0 <= i < |hs|
        ensures MarkedBody(hs[i].body)
      {
        if i > 0 {
          assert hs[1..][i - 1] == hs[i];
        }
      }
    }
  }

  /** Moving the seam between new and old lines across an unchanged stretch changes nothing. */
  lemma {:induction false} MoveSeam(s: Sides, tail: seq<string>, a: int, b: int, a': int, b': int)
    requires SameGap(s, a, b, a', b')
    ensures s.newLines[..b] + (s.oldLines[a..] + tail) == s.newLines[..b'] + (s.oldLines[a'..] + tail)
  {
    assert s.oldLines[a..a'] == s.newLines[b..b'];
    assert s.newLines[..b'] == s.newLines[..b] + s.newLines[b..b'];
    assert s.oldLines[a..] == s.oldLines[a..a'] + s.oldLines[a'..];
  }

  /** Applying the hunks of a chain, oldest first and at their positions in the new text, is sound: every check
      succeeds, and everything up to the end of the newest hunk becomes new text. */
  lemma {:induction false} ApplyChain(s: Sides, hs: seq<Section>, tail: seq<string>)
    requires Chain(s, hs)
    ensures 0 <= OldEnd(hs) <= |s.oldLines| && 0 <= NewEnd(hs) <= |s.newLines|
    ensures ApplyHunks(s.oldLines + tail, ToHunks(hs))
      == Some(s.newLines[..NewEnd(hs)] + (s.oldLines[OldEnd(hs)..] + tail))
  {
    hide ApplyHunks, Splice, Fits, Side, MarkedBody, SameGap, ToHunk, Chain, SectionFits;
    if hs == [] {
      assert s.newLines[..0] + (s.oldLines[0..] + tail) == s.oldLines + tail;
      ApplyNone(s.oldLines + tail);
    } else {
      var rest := hs[1..];
      ChainTop(s, hs);
      ApplyChain(s, rest, tail);
      var a, b := hs[0].header.oldStart - 1, hs[0].header.newStart - 1;
      MoveSeam(s, tail, OldEnd(rest), NewEnd(rest), a, b);
      ApplyOne(s, hs[0], tail);
      assert ToHunks(hs)[1..] == ToHunks(rest) && ToHunks(hs)[0] == ToHunk(hs[0]);
      HunkOf(hs[0]);
      ApplyTop(s.oldLines + tail, ToHunks(hs), s.newLines[..b] + (s.oldLines[a..] + tail));
    }
  }

  lemma {:induction false} ChainTop(s: Sides, hs: seq<Section>)
    requires Chain(s, hs) && hs != []
    ensures Chain(s, hs[1..]) && SectionFits(s, hs[0])
    ensures SameGap(s, OldEnd(hs[1..]), NewEnd(hs[1..]), hs[0].header.oldStart - 1, hs[0].header.newStart - 1)
    ensures 0 <= OldEnd(hs[1..]) <= hs[0].header.oldStart - 1 <= OldEnd(hs) <= |s.oldLines|
    ensures 0 <= NewEnd(hs[1..]) <= hs[0].header.newStart - 1 <= NewEnd(hs) <= |s.newLines|
  {
    hide Side, MarkedBody;
  }

  lemma {:induction false} HunkOf(h: Section)
    ensures OldLength(ToHunk(h)) == h.header.oldLength && Start(ToHunk(h)) == h.header.newStart - 1
  {
  }

  lemma {:induction false} ApplyNone(lines: seq<string>)
    ensures ApplyHunks(lines, []) == Some(lines)
  {
  }

  lemma {:induction false} ApplyTop(lines: seq<string>, hunks: seq<Hunk>, before: seq<string>)
    requires hunks != [] && ApplyHunks(lines, hunks[1..]) == Some(before)
    requires Fits(before, hunks[0], OldLength(hunks[0]))
    ensures ApplyHunks(lines, hunks)
         == Some(Splice(before, Start(hunks[0]), OldLength(hunks[0]), hunks[0].added))
  {
  }

  lemma {:induction false} ApplyOne(s: Sides, h: Section, tail: seq<string>)
    requires SectionFits(s, h)
    ensures var a, b := h.header.oldStart - 1, h.header.newStart - 1;
      var lines := s.newLines[..b] + (s.oldLines[a..] + tail);
      && Fits(lines, ToHunk(h), h.header.oldLength)
      && Splice(lines, b, h.header.oldLength, ToHunk(h).added)
           == s.newLines[..b + h.header.newLength] + (s.oldLines[a + h.header.oldLength..] + tail)
  {
    hide Side;
    var a, b, n := h.header.oldStart - 1, h.header.newStart - 1, h.header.oldLength;
    var lines := s.newLines[..b] + (s.oldLines[a..] + tail);
    forall j | 0 <= j < n
      ensures Get(lines, b + j) == Get(Side(h.body, '-'), j)
    {
      assert lines[b + j] == s.oldLines[a..][j];
    }
    assert s.newLines[..b + h.header.newLength] == s.newLines[..b] + Side(h.body, '+');
    SpliceSeam(s.newLines[..b], s.oldLines[a..] + tail, n, Side(h.body, '+'));
    assert (s.oldLines[a..] + tail)[n..] == s.oldLines[a + n..] + tail;
  }

  lemma {:induction false} SpliceSeam(front: seq<string>, back: seq<string>, n: nat, items: seq<string>)
    requires n <= |back|
    ensures Splice(front + back, |front|, n, items) == front + items + back[n..]
  {
    assert (front + back)[..|front|] == front;
    assert (front + back)[|front| + n..] == back[n..];
  }
}
