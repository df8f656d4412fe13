/** The blocks of lines that the patch printer receives: where each one lies in both texts, and which of them can
    lack a final newline. */
module PatchLayout {
  import opened Wrappers
  import opened Text
  import opened PatchSections
  import opened EditScript
  import opened ScriptValues

  /** A change with its joined text; `lines` is set only on the sentinel that the printer appends. */
  datatype PatchChange = PatchChange(kind: Kind, value: string, lines: Option<seq<string>>)

  function LinesOf(c: PatchChange): seq<string> {
    if c.lines.Some? then c.lines.value else BlockLines(c.value)
  }

  predicate Open(c: PatchChange) { !EndsNL(c.value) }

  // ---------------------------------------------------------------- layouts

  /** `os[i]` and `ns[i]` are the numbers of old and new lines before block `i`; a text is open when it lacks its
      final newline. */
  datatype Layout = Layout(sides: Sides, os: seq<nat>, ns: seq<nat>, oldOpen: bool, newOpen: bool)

  ghost predicate LaidOut(l: Layout, diff: seq<PatchChange>) {
    var n := |diff|;
    && n > 0 && |l.os| == n + 1 && |l.ns| == n + 1
    && l.os[0] == 0 && l.ns[0] == 0
    && l.os[n] == |l.sides.oldLines| && l.ns[n] == |l.sides.newLines|
    && forall i {:trigger Block(l, diff, i)} :: 0 <= i < n ==> Block(l, diff, i)
  }

  /** Block `i` lists the lines of its stretch of one text or of both. A change lacks its newline only if it is the
      last change of its kind, with at most an addition behind a removal. */
  ghost predicate Block(l: Layout, diff: seq<PatchChange>, i: int) {
    && 0 <= i < |diff| && |l.os| == |l.ns| == |diff| + 1
    && diff[i].lines == None
    && l.os[i] <= l.os[i + 1] <= |l.sides.oldLines| && l.ns[i] <= l.ns[i + 1] <= |l.sides.newLines|
    && (diff[i].kind == Added ==> l.os[i] == l.os[i + 1])
    && (diff[i].kind == Removed ==> l.ns[i] == l.ns[i + 1])
    && (diff[i].kind != Added ==> LinesOf(diff[i]) == l.sides.oldLines[l.os[i]..l.os[i + 1]])
    && (diff[i].kind != Removed ==> LinesOf(diff[i]) == l.sides.newLines[l.ns[i]..l.ns[i + 1]])
    && LinesOf(diff[i]) != [] && AllFlat(LinesOf(diff[i]))
    && (i > 0 ==> diff[i - 1].kind != diff[i].kind)
    && (Open(diff[i]) && diff[i].kind == Added ==> i == |diff| - 1)
    && (Open(diff[i]) && diff[i].kind == Removed
        ==> i == |diff| - 1 || (i == |diff| - 2 && diff[i + 1].kind == Added))
  }

  /** Some block of this kind among the first `n` lacks its newline. */
  ghost predicate OpenAmong(diff: seq<PatchChange>, kind: Kind, n: nat)
    requires n <= |diff|
  {
    n > 0 && (OpenAmong(diff, kind, n - 1) || (diff[n - 1].kind == kind && Open(diff[n - 1])))
  }

  function Tail(open: bool): seq<string> { if open then [] else [""] }

  /** How the missing final newlines of the two texts show up among the blocks. */
  ghost predicate EndsRight(l: Layout, diff: seq<PatchChange>) {
    var added, removed := OpenAmong(diff, Added, |diff|), OpenAmong(diff, Removed, |diff|);
    && (added ==> l.newOpen && l.sides.newLines != [] && LastOf(l.sides.newLines) != "")
    && (removed ==> l.oldOpen)
    && (l.newOpen && !added ==> l.oldOpen && !removed)
    && (l.oldOpen && !l.newOpen ==> removed)
  }

  /** The blocks describe the change of `oldStr` into `newStr`. */
  ghost predicate Covers(oldStr: string, newStr: string, diff: seq<PatchChange>, l: Layout) {
    && LaidOut(l, diff)
    && EndsRight(l, diff)
    && Split(oldStr) == l.sides.oldLines + Tail(l.oldOpen)
    && Split(newStr) == l.sides.newLines + Tail(l.newOpen)
  }

  // ---------------------------------------------------------------- from scripts to layouts

  /** Line tokens match when they are equal, newline included. */
  function LineProblem(oldTokens: seq<string>, newTokens: seq<string>): Problem<string> {
    Problem(oldTokens, newTokens, (left: string, right: string) => left == right, false, (s: string) => |s|)
  }

  function TextProblem(oldStr: string, newStr: string): Problem<string> {
    LineProblem(Tokens(oldStr), Tokens(newStr))
  }

  ghost predicate Joined(p: Problem<string>, cs: seq<Component>, diff: seq<PatchChange>) {
    && Traces(p, cs) && |diff| == |cs|
    && forall i :: 0 <= i < |cs| ==> diff[i] == PatchChange(cs[i].kind, Concat(Valued(p, cs)[i].value), None)
  }

  /** The old and new positions before each component. */
  ghost function Spans(cs: seq<Component>): (r: (seq<nat>, seq<nat>))
    ensures |r.0| == |r.1| == |cs| + 1
  {
    (seq(|cs| + 1, i requires 0 <= i <= |cs| => OldSpan(cs[..i])),
     seq(|cs| + 1, i requires 0 <= i <= |cs| => NewSpan(cs[..i])))
  }

  ghost function LayoutOf(oldStr: string, newStr: string, cs: seq<Component>): Layout {
    Layout(Sides(Strips(Tokens(oldStr)), Strips(Tokens(newStr))), Spans(cs).0, Spans(cs).1, TextOpen(oldStr),
      TextOpen(newStr))
  }

  predicate TextOpen(s: string) { s != "" && !EndsNL(s) }

  lemma {:induction false} ValuedAt<T>(p: Problem<T>, cs: seq<Component>, i: nat)
    requires Traces(p, cs) && i < |cs|
    ensures OldSpan(cs[..i]) + OldPart(cs[i]) == OldSpan(cs[..i + 1]) <= |p.oldTokens|
    ensures NewSpan(cs[..i]) + NewPart(cs[i]) == NewSpan(cs[..i + 1]) <= |p.newTokens|
    ensures Valued(p, cs)[i] == Change(cs[i].kind, cs[i].count, Value(p, OldSpan(cs[..i]), NewSpan(cs[..i]), cs[i]))
  {
    Progress(p, cs, i);
    if i < |cs| - 1 {
      var init := cs[..|cs| - 1];
      ValuedAt(p, init, i);
      assert init[..i] == cs[..i] && init[..i + 1] == cs[..i + 1];
    } else {
      assert cs[..i] == cs[..|cs| - 1] && cs[..i + 1] == cs;
    }
  }

  lemma {:induction false} CanonicalAt(cs: seq<Component>, i: nat)
    requires Canonical(cs) && i < |cs|
    ensures cs[i].count > 0
    ensures i > 0 ==> cs[i - 1].kind != cs[i].kind && !(cs[i - 1].kind == Added && cs[i].kind == Removed)
  {
    if i < |cs| - 1 {
      CanonicalAt(cs[..|cs| - 1], i);
    }
  }

  lemma {:induction false} StripsSlice(tokens: seq<string>, i: nat, j: nat)
    requires i <= j <= |tokens|
    ensures Strips(tokens[i..j]) == Strips(tokens)[i..j]
  {
  }

  lemma {:induction false} TerminatedSlice(tokens: seq<string>, i: nat, j: nat)
    requires Terminated(tokens) && i <= j <= |tokens|
    ensures Terminated(tokens[i..j])
    ensures i < j < |tokens| ==> EndsNL(tokens[i..j][j - i - 1])
  {
    forall k | 0 <= k < j - i
      ensures TerminatedAt(tokens[i..j], k)
    {
      assert TerminatedAt(tokens, i + k);
    }
    if i < j {
      assert TerminatedAt(tokens, j - 1);
    }
  }

  /** The kept tokens are the same strings on both sides. */
  lemma {:induction false} KeptIsEqual(oldStr: string, newStr: string, x: nat, y: nat, n: nat)
    requires KeptRun(TextProblem(oldStr, newStr), x, y, n)
    ensures x + n <= |Tokens(oldStr)| || n == 0
    ensures y + n <= |Tokens(newStr)| || n == 0
    ensures n > 0 ==> Tokens(oldStr)[x..x + n] == Tokens(newStr)[y..y + n]
  {
    hide Tokens;
    if n > 0 {
      KeptIsEqual(oldStr, newStr, x, y, n - 1);
      var o, t := Tokens(oldStr), Tokens(newStr);
      assert o[x..x + n] == (if n == 1 then [] else o[x..x + n - 1]) + [o[x + n - 1]];
      assert t[y..y + n] == (if n == 1 then [] else t[y..y + n - 1]) + [t[y + n - 1]];
    }
  }

  // ---------------------------------------------------------------- every diff has a layout

  /** What is known about one block of a complete canonical script between two texts. */
  ghost predicate Scripted(oldStr: string, newStr: string, cs: seq<Component>, diff: seq<PatchChange>) {
    && Complete(TextProblem(oldStr, newStr), cs) && Canonical(cs)
    && Joined(TextProblem(oldStr, newStr), cs, diff)
  }

  /** Change `c` joins the tokens `slice`, which lie between these positions on the sides that list it. */
  ghost predicate Cut(o: seq<string>, n: seq<string>, c: PatchChange, slice: seq<string>, x: nat, y: nat, x': nat,
                      y': nat) {
    && x <= x' <= |o| && y <= y' <= |n|
    && (if c.kind == Added then x == x' else slice == o[x..x'])
    && (if c.kind == Removed then y == y' else slice == n[y..y'])
    && slice != [] && c == PatchChange(c.kind, Concat(slice), None)
  }

  lemma {:induction false} BlockIsCut(oldStr: string, newStr: string, cs: seq<Component>, diff: seq<PatchChange>,
                                      i: nat)
    returns (slice: seq<string>)
    requires Scripted(oldStr, newStr, cs, diff) && i < |cs|
    ensures diff[i].kind == cs[i].kind
    ensures Cut(Tokens(oldStr), Tokens(newStr), diff[i], slice,
                OldSpan(cs[..i]), NewSpan(cs[..i]), OldSpan(cs[..i + 1]), NewSpan(cs[..i + 1]))
  {
    hide Valued, Concat, Tokens;
    var p := TextProblem(oldStr, newStr);
    ValuedAt(p, cs, i);
    CanonicalAt(cs, i);
    if cs[i].kind == Kept {
      KeptAt(p, cs, i);
      KeptIsEqual(oldStr, newStr, OldSpan(cs[..i]), NewSpan(cs[..i]), cs[i].count);
    }
    slice := Value(p, OldSpan(cs[..i]), NewSpan(cs[..i]), cs[i]);
  }

  lemma {:induction false} KeptAt<T>(p: Problem<T>, cs: seq<Component>, i: nat)
    requires Traces(p, cs) && i < |cs| && cs[i].kind == Kept
    ensures KeptRun(p, OldSpan(cs[..i]), NewSpan(cs[..i]), cs[i].count)
  {
    TracesPrefix(p, cs, i + 1);
    assert cs[..i + 1][..i] == cs[..i];
  }

  lemma {:induction false} CutLines(o: seq<string>, n: seq<string>, c: PatchChange, slice: seq<string>, x: nat, y: nat,
                                    x': nat, y': nat)
    requires Terminated(o) && Terminated(n) && Cut(o, n, c, slice, x, y, x', y')
    ensures LinesOf(c) == Strips(slice) && AllFlat(LinesOf(c))
    ensures c.kind != Added ==> LinesOf(c) == Strips(o)[x..x']
    ensures c.kind != Removed ==> LinesOf(c) == Strips(n)[y..y']
    ensures Open(c) == !EndsNL(slice[|slice| - 1])
  {
    hide BlockLines;
    TerminatedSlice(o, x, x');
    TerminatedSlice(n, y, y');
    StripsSlice(o, x, x');
    StripsSlice(n, y, y');
    BlockLinesOfTokens(slice);
    forall k | 0 <= k < |slice|
      ensures Flat(Strips(slice)[k])
    {
      assert TerminatedAt(slice, k);
    }
  }

  /** A block that lacks its newline ends with the last token of each text that lists it. */
  lemma {:induction false} OpenIsLast(o: seq<string>, n: seq<string>, c: PatchChange, slice: seq<string>, x: nat,
                                      y: nat, x': nat, y': nat)
    requires Terminated(o) && Terminated(n) && Cut(o, n, c, slice, x, y, x', y')
    ensures Open(c) && c.kind != Added ==> x' == |o| > 0 && !EndsNL(o[|o| - 1])
    ensures Open(c) && c.kind != Removed ==> y' == |n| > 0 && !EndsNL(n[|n| - 1])
    ensures x' == |o| && |o| > 0 && !EndsNL(o[|o| - 1]) && c.kind != Added ==> Open(c)
    ensures y' == |n| && |n| > 0 && !EndsNL(n[|n| - 1]) && c.kind != Removed ==> Open(c)
  {
    hide Strips, LinesOf;
    CutLines(o, n, c, slice, x, y, x', y');
    if c.kind != Added {
      assert TerminatedAt(o, x' - 1);
    }
    if c.kind != Removed {
      assert TerminatedAt(n, y' - 1);
    }
  }

  lemma {:induction false} SpanMonotone(cs: seq<Component>, i: nat, j: nat)
    requires i <= j <= |cs|
    ensures OldSpan(cs[..i]) <= OldSpan(cs[..j]) && NewSpan(cs[..i]) <= NewSpan(cs[..j])
    decreases j
  {
    if i < j {
      SpanMonotone(cs, i, j - 1);
      assert cs[..j][..j - 1] == cs[..j - 1];
    }
  }

  /** After the last old token only one addition can follow, and after the last new token nothing. */
  lemma {:induction false} NothingAfter(p: Problem<string>, cs: seq<Component>, i: nat)
    requires Complete(p, cs) && Canonical(cs) && i < |cs|
    ensures cs[i].kind == Added && NewSpan(cs[..i + 1]) == |p.newTokens| ==> i == |cs| - 1
    ensures cs[i].kind == Removed && OldSpan(cs[..i + 1]) == |p.oldTokens|
      ==> i == |cs| - 1 || (i == |cs| - 2 && cs[i + 1].kind == Added)
  {
    hide Traces, Value;
    if i + 1 < |cs| {
      CanonicalAt(cs, i + 1);
      Progress(p, cs, i + 1);
      if i + 2 < |cs| {
        CanonicalAt(cs, i + 2);
        Progress(p, cs, i + 2);
      }
    }
  }

  lemma {:induction false} BlocksLaidOut(oldStr: string, newStr: string, cs: seq<Component>, diff: seq<PatchChange>,
                                         i: nat)
    requires Scripted(oldStr, newStr, cs, diff) && i < |cs|
    ensures Block(LayoutOf(oldStr, newStr, cs), diff, i)
  {
    hide BlockLines, Traces, Canonical, Tokens, Strips, LinesOf;
    var p := TextProblem(oldStr, newStr);
    var o, n := Tokens(oldStr), Tokens(newStr);
    TokensTerminated(oldStr);
    TokensTerminated(newStr);
    var slice := BlockIsCut(oldStr, newStr, cs, diff, i);
    var x, y, x', y' := OldSpan(cs[..i]), NewSpan(cs[..i]), OldSpan(cs[..i + 1]), NewSpan(cs[..i + 1]);
    CutLines(o, n, diff[i], slice, x, y, x', y');
    OpenIsLast(o, n, diff[i], slice, x, y, x', y');
    NothingAfter(p, cs, i);
    CanonicalAt(cs, i);
    assert forall k :: 0 <= k < |cs| ==> diff[k].kind == cs[k].kind;
  }

  lemma {:induction false} FindOpen(diff: seq<PatchChange>, kind: Kind, n: nat) returns (i: nat)
    requires n <= |diff| && OpenAmong(diff, kind, n)
    ensures i < n && diff[i].kind == kind && Open(diff[i])
  {
    i := n - 1;
    if !(diff[n - 1].kind == kind && Open(diff[n - 1])) {
      i := FindOpen(diff, kind, n - 1);
    }
  }

  lemma {:induction false} OpenIsAmong(diff: seq<PatchChange>, i: nat, n: nat)
    requires i < n <= |diff| && Open(diff[i])
    ensures OpenAmong(diff, diff[i].kind, n)
  {
    if i < n - 1 {
      OpenIsAmong(diff, i, n - 1);
    }
  }

  /** Block `i` with its position, and how its missing newline relates to those of the two texts. */
  ghost predicate Ends(oldStr: string, newStr: string, cs: seq<Component>, diff: seq<PatchChange>, i: nat)
    requires i < |cs| == |diff|
  {
    var o, n := Tokens(oldStr), Tokens(newStr);
    var x, y, x', y' := OldSpan(cs[..i]), NewSpan(cs[..i]), OldSpan(cs[..i + 1]), NewSpan(cs[..i + 1]);
    && diff[i].kind == cs[i].kind
    && (cs[i].kind != Added ==> x < x' && (Open(diff[i]) <==> x' == |o| && TextOpen(oldStr)))
    && (cs[i].kind != Removed ==> y < y' && (Open(diff[i]) <==> y' == |n| && TextOpen(newStr)))
    && (cs[i].kind == Added ==> x == x') && (cs[i].kind == Removed ==> y == y')
  }

  lemma {:induction false} BlockEnds(oldStr: string, newStr: string, cs: seq<Component>, diff: seq<PatchChange>, i: nat)
    requires Scripted(oldStr, newStr, cs, diff) && i < |cs|
    ensures Ends(oldStr, newStr, cs, diff, i)
  {
    hide Traces, Canonical, Tokens, Strips, LinesOf, Terminated, OldSpan, NewSpan, Concat;
    TokensTerminated(oldStr);
    TokensTerminated(newStr);
    var slice := BlockIsCut(oldStr, newStr, cs, diff, i);
    OpenIsLast(Tokens(oldStr), Tokens(newStr), diff[i], slice,
               OldSpan(cs[..i]), NewSpan(cs[..i]), OldSpan(cs[..i + 1]), NewSpan(cs[..i + 1]));
  }

  lemma {:induction false} NewOpenEnds(oldStr: string, newStr: string, cs: seq<Component>, diff: seq<PatchChange>)
    requires Scripted(oldStr, newStr, cs, diff) && cs != []
    requires TextOpen(newStr) && !OpenAmong(diff, Added, |diff|)
    ensures TextOpen(oldStr) && !OpenAmong(diff, Removed, |diff|)
  {
    hide Traces, Canonical, Tokens, Concat, Terminated;
    var m := |cs| - 1;
    assert cs[..m + 1] == cs;
    BlockEnds(oldStr, newStr, cs, diff, m);
    CanonicalAt(cs, m);
    TokensTerminated(newStr);
    if Open(diff[m]) {
      OpenIsAmong(diff, m, |diff|);
    }
    if m > 0 {
      BlockEnds(oldStr, newStr, cs, diff, m - 1);
    }
    if cs[m].kind == Kept {
      KeptLast(oldStr, newStr, cs, diff);
    }
  }

  lemma {:induction false} KeptLast(oldStr: string, newStr: string, cs: seq<Component>, diff: seq<PatchChange>)
    requires Scripted(oldStr, newStr, cs, diff) && cs != [] && cs[|cs| - 1].kind == Kept
    ensures !OpenAmong(diff, Removed, |diff|)
  {
    hide Traces, Canonical, Tokens;
    if OpenAmong(diff, Removed, |diff|) {
      var i := FindOpen(diff, Removed, |diff|);
      BlockEnds(oldStr, newStr, cs, diff, i);
      NothingAfter(TextProblem(oldStr, newStr), cs, i);
    }
  }

  lemma {:induction false} OldOpenEnds(oldStr: string, newStr: string, cs: seq<Component>, diff: seq<PatchChange>)
    requires Scripted(oldStr, newStr, cs, diff) && cs != []
    requires TextOpen(oldStr) && !TextOpen(newStr)
    ensures OpenAmong(diff, Removed, |diff|)
  {
    hide Traces, Canonical, Tokens;
    var m := |cs| - 1;
    assert cs[..m + 1] == cs;
    BlockEnds(oldStr, newStr, cs, diff, m);
    CanonicalAt(cs, m);
    TokensTerminated(oldStr);
    if Open(diff[m]) {
      OpenIsAmong(diff, m, |diff|);
    }
    if m > 0 {
      BlockEnds(oldStr, newStr, cs, diff, m - 1);
      if Open(diff[m - 1]) {
        OpenIsAmong(diff, m - 1, |diff|);
      }
    }
  }

  lemma {:induction false} ScriptLaidOut(oldStr: string, newStr: string, cs: seq<Component>, diff: seq<PatchChange>)
    requires Scripted(oldStr, newStr, cs, diff) && cs != []
    ensures LaidOut(LayoutOf(oldStr, newStr, cs), diff)
  {
    hide Traces, Canonical, Tokens, Block, Strips, Valued;
    var l := LayoutOf(oldStr, newStr, cs);
    forall i: nat | i < |cs|
      ensures Block(l, diff, i)
    {
      BlocksLaidOut(oldStr, newStr, cs, diff, i);
    }
    assert cs[..0] == [] && cs[..|cs|] == cs;
  }

  /** A complete canonical script between two texts, with its values joined, is a layout of their lines. */
  lemma {:induction false} ScriptCovers(oldStr: string, newStr: string, cs: seq<Component>, diff: seq<PatchChange>)
    requires Scripted(oldStr, newStr, cs, diff) && cs != []
    ensures Covers(oldStr, newStr, diff, LayoutOf(oldStr, newStr, cs))
  {
    hide Traces, Canonical, Tokens, Block, LaidOut, OldSpan, NewSpan, Strips;
    var l := LayoutOf(oldStr, newStr, cs);
    ScriptLaidOut(oldStr, newStr, cs, diff);
    StripsTokens(oldStr);
    StripsTokens(newStr);
    AddedEnds(oldStr, newStr, cs, diff);
    if TextOpen(newStr) && !OpenAmong(diff, Added, |diff|) {
      NewOpenEnds(oldStr, newStr, cs, diff);
    }
    if TextOpen(oldStr) && !TextOpen(newStr) {
      OldOpenEnds(oldStr, newStr, cs, diff);
    }
    assert EndsRight(l, diff);
  }

  lemma {:induction false} AddedEnds(oldStr: string, newStr: string, cs: seq<Component>, diff: seq<PatchChange>)
    requires Scripted(oldStr, newStr, cs, diff)
    ensures OpenAmong(diff, Added, |diff|) ==>
      TextOpen(newStr) && Tokens(newStr) != [] && LastOf(Strips(Tokens(newStr))) != ""
    ensures OpenAmong(diff, Removed, |diff|) ==> TextOpen(oldStr)
  {
    hide Traces, Canonical, Tokens;
    if OpenAmong(diff, Added, |diff|) {
      var i := FindOpen(diff, Added, |diff|);
      BlockEnds(oldStr, newStr, cs, diff, i);
      TokensTerminated(newStr);
      var n := Tokens(newStr);
      assert TerminatedAt(n, |n| - 1);
    }
    if OpenAmong(diff, Removed, |diff|) {
      var i := FindOpen(diff, Removed, |diff|);
      BlockEnds(oldStr, newStr, cs, diff, i);
    }
  }
}
