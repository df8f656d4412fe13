/** Parsing a unified diff and applying it to a text. Total on every pair of strings: what the code does with a
    patch it did not write itself is part of the model. */
module PatchApply {
  import opened Wrappers
  import opened Text
  import opened UnifiedFormat

  /** `Hangs` is the endless loop that removes trailing empty lines from a list that has no other lines. */
  datatype Outcome = Applied(text: string) | Mismatch | Hangs

  /** A hunk under construction; the header is missing when its line was not recognised. */
  datatype Hunk = Hunk(header: Option<Header>, removed: seq<string>, added: seq<string>)

  /** The newest hunk is at the front of the list, as the code keeps it. */
  datatype Parsed = Parsed(hunks: seq<Hunk>, remEOFNL: bool, addEOFNL: bool)

  // ---------------------------------------------------------------- parsing

  predicate StartsWith(line: string, c: char) { line != "" && line[0] == c }

  function AddTo(hunks: seq<Hunk>, removed: seq<string>, added: seq<string>): (r: seq<Hunk>)
    ensures |r| == |hunks|
  {
    if hunks == [] then []
    else hunks[0 := hunks[0].(removed := hunks[0].removed + removed, added := hunks[0].added + added)]
  }

  function ParseLine(st: Parsed, prev: string, line: string): Parsed {
    if StartsWith(line, '@') then st.(hunks := [Hunk(FindHeader(line, 0), [], [])] + st.hunks)
    else if StartsWith(line, '+') then st.(hunks := AddTo(st.hunks, [], [line[1..]]))
    else if StartsWith(line, '-') then st.(hunks := AddTo(st.hunks, [line[1..]], []))
    else if StartsWith(line, ' ') then st.(hunks := AddTo(st.hunks, [line[1..]], [line[1..]]))
    else if StartsWith(line, '\\') then
      if StartsWith(prev, '+') then st.(remEOFNL := true)
      else if StartsWith(prev, '-') then st.(addEOFNL := true)
      else st
    else st
  }

  function Parse(lines: seq<string>): Parsed {
    if lines == [] then Parsed([], false, false)
    else ParseLine(Parse(lines[..|lines| - 1]), LastOf(lines[..|lines| - 1]), lines[|lines| - 1])
  }

  predicate IsHunkLine(line: string) { |line| > 1 && line[0] == '@' && line[1] == '@' }

  /** The position of the first line that opens a hunk. */
  function FirstHunk(lines: seq<string>, i: nat): (r: nat)
    requires i <= |lines|
    ensures i <= r <= |lines| && (r < |lines| ==> IsHunkLine(lines[r]))
    ensures forall k :: i <= k < r ==> !IsHunkLine(lines[k])
    decreases |lines| - i
  {
    if i < |lines| && !IsHunkLine(lines[i]) then FirstHunk(lines, i + 1) else i
  }

  // ---------------------------------------------------------------- applying

  function Get(lines: seq<string>, i: int): Option<string> {
    if 0 <= i < |lines| then Some(lines[i]) else None
  }

  /** `splice(start, count, ...items)`: a negative start counts from the end, and both are clamped. */
  function Splice(lines: seq<string>, start: int, count: nat, items: seq<string>): seq<string> {
    var n := |lines|;
    var i := if start < 0 then (if n + start < 0 then 0 else n + start) else if start > n then n else start;
    var j := if i + count > n then n else i + count;
    lines[..i] + items + lines[j..]
  }

  /** The index at which a hunk is applied; arithmetic on a missing header gives NaN, which `splice` takes for 0. */
  function Start(h: Hunk): int { if h.header.Some? then h.header.value.newStart - 1 else 0 }

  function OldLength(h: Hunk): nat { if h.header.Some? then h.header.value.oldLength else 0 }

  predicate Fits(lines: seq<string>, h: Hunk, n: nat) {
    forall j :: 0 <= j < n ==> Get(lines, Start(h) + j) == Get(h.removed, j)
  }

  function ApplyHunks(lines: seq<string>, hunks: seq<Hunk>): Option<seq<string>> {
    if hunks == [] then Some(lines)
    else
      match ApplyHunks(lines, hunks[1..])
      case None => None
      case Some(ls) =>
        if Fits(ls, hunks[0], OldLength(hunks[0]))
        then Some(Splice(ls, Start(hunks[0]), OldLength(hunks[0]), hunks[0].added))
        else None
  }

  predicate AllEmpty(lines: seq<string>) { forall i :: 0 <= i < |lines| ==> lines[i] == "" }

  function DropEmpty(lines: seq<string>): seq<string> {
    if lines != [] && lines[|lines| - 1] == "" then DropEmpty(lines[..|lines| - 1]) else lines
  }

  function Finish(lines: seq<string>, p: Parsed): Outcome {
    if p.remEOFNL then (if AllEmpty(lines) then Hangs else Applied(Join(DropEmpty(lines))))
    else Applied(Join(if p.addEOFNL then lines + [""] else lines))
  }

  function Apply(oldStr: string, uniDiff: string): Outcome {
    var diffstr := Split(uniDiff);
    var p := Parse(diffstr[FirstHunk(diffstr, 0)..]);
    match ApplyHunks(Split(oldStr), p.hunks)
    case None => Mismatch
    case Some(lines) => Finish(lines, p)
  }

  // ---------------------------------------------------------------- the code

  method ParsePatch(diffstr: seq<string>) returns (p: Parsed)
    ensures p == Parse(diffstr[FirstHunk(diffstr, 0)..])
  {
    hide ParseLine, IsHunkLine;
    var i := 0;
    while i < |diffstr| && !IsHunkLine(diffstr[i])
      invariant i <= |diffstr| && FirstHunk(diffstr, i) == FirstHunk(diffstr, 0)
    {
      i := i + 1;
    }
    ghost var body := diffstr[i..];
    ghost var first := i;
    p := Parsed([], false, false);
    while i < |diffstr|
      invariant first <= i <= |diffstr|
      invariant p == Parse(body[..i - first])
    {
      ghost var k := i - first;
      assert body[..k + 1][..k] == body[..k];
      assert k > 0 ==> LastOf(body[..k]) == diffstr[i - 1];
      if k == 0 {
        HunkAlone(p, if i > 0 then diffstr[i - 1] else "", diffstr[i]);
      }
      p := ParseLine(p, if i > 0 then diffstr[i - 1] else "", diffstr[i]);
      i := i + 1;
    }
    assert body[..|body|] == body;
  }

  /** A line that opens a hunk is read without the line before it. */
  lemma {:induction false} HunkAlone(p: Parsed, prev: string, line: string)
    requires IsHunkLine(line)
    ensures ParseLine(p, prev, line) == ParseLine(p, "", line)
  {
  }

  /** Splices every hunk into `lines`, oldest first, after checking that the removed lines are there. */
  method SpliceHunks(oldLines: seq<string>, hunks: seq<Hunk>) returns (r: Option<seq<string>>)
    ensures r == ApplyHunks(oldLines, hunks)
  {
    var lines := oldLines;
    var i := |hunks| - 1;
    assert hunks[|hunks|..] == [];
    while i >= 0
      invariant -1 <= i < |hunks|
      invariant ApplyHunks(oldLines, hunks[i + 1..]) == Some(lines)
      invariant ApplyHunks(oldLines, hunks).Some? ==> ApplyHunks(oldLines, hunks[i + 1..]).Some?
    {
      var hunk := hunks[i];
      assert hunks[i..][1..] == hunks[i + 1..];
      var j := 0;
      while j < OldLength(hunk)
        invariant j <= OldLength(hunk) && Fits(lines, hunk, j)
      {
        if Get(lines, Start(hunk) + j) != Get(hunk.removed, j) {
          NoneStays(oldLines, hunks, i);
          return None;
        }
        j := j + 1;
      }
      lines := Splice(lines, Start(hunk), OldLength(hunk), hunk.added);
      i := i - 1;
    }
    assert hunks[0..] == hunks;
    return Some(lines);
  }

  lemma {:induction false} NoneStays(lines: seq<string>, hunks: seq<Hunk>, i: nat)
    requires i <= |hunks| && ApplyHunks(lines, hunks[i..]) == None
    ensures ApplyHunks(lines, hunks) == None
    decreases i
  {
    if i > 0 {
      assert hunks[i - 1..][1..] == hunks[i..];
      NoneStays(lines, hunks, i - 1);
    } else {
      assert hunks[0..] == hunks;
    }
  }

  method ApplyPatch(oldStr: string, uniDiff: string) returns (r: Outcome)
    ensures r == Apply(oldStr, uniDiff)
  {
    var p := ParsePatch(Split(uniDiff));
    var spliced := SpliceHunks(Split(oldStr), p.hunks);
    if spliced.None? {
      return Mismatch;
    }
    var lines := spliced.value;
    if p.remEOFNL {
      ghost var all := lines;
      while lines != [] && lines[|lines| - 1] == ""
        invariant DropEmpty(lines) == DropEmpty(all)
        invariant AllEmpty(all) <==> AllEmpty(lines)
      {
        LastEmpty(lines);
        lines := lines[..|lines| - 1];
      }
      if lines == [] {
        return Hangs;
      }
      assert lines[|lines| - 1] != "";
    } else if p.addEOFNL {
      lines := lines + [""];
    }
    return Applied(Join(lines));
  }

  lemma {:induction false} LastEmpty(lines: seq<string>)
    requires lines != [] && lines[|lines| - 1] == ""
    ensures AllEmpty(lines) <==> AllEmpty(lines[..|lines| - 1])
  {
    if AllEmpty(lines[..|lines| - 1]) {
      forall i | 0 <= i < |lines|
        ensures lines[i] == ""
      {
        if i < |lines| - 1 {
          assert lines[..|lines| - 1][i] == "";
        }
      }
    }
  }
}
