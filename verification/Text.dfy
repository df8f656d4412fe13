/** Strings as lists of lines: the string operations that the patch code is built from. All of them are defined
    by what happens when one more character, line or token is appended. */
module Text {

  // ---------------------------------------------------------------- split and join at newlines

  /** The lines of `s`: what is between its newlines, so always one more line than there are newlines. */
  function Split(s: string): (lines: seq<string>)
    ensures |lines| > 0
  {
    if s == "" then [""] else Push(Split(s[..|s| - 1]), s[|s| - 1])
  }

  /** The lines of a text with lines `lines` to which `c` is appended. */
  function Push(lines: seq<string>, c: char): (r: seq<string>)
    requires |lines| > 0
    ensures |r| > 0
  {
    if c == '\n' then lines + [""] else lines[|lines| - 1 := lines[|lines| - 1] + [c]]
  }

  function Join(lines: seq<string>): string {
    if |lines| == 0 then ""
    else if |lines| == 1 then lines[0]
    else Join(lines[..|lines| - 1]) + "\n" + lines[|lines| - 1]
  }

  /** The last line, or the empty one if there is none. */
  function LastOf(lines: seq<string>): string { if lines == [] then "" else lines[|lines| - 1] }

  predicate Flat(line: string) { '\n' !in line }

  ghost predicate AllFlat(lines: seq<string>) { forall i :: 0 <= i < |lines| ==> Flat(lines[i]) }

  lemma {:induction false} JoinPush(lines: seq<string>, c: char)
    requires |lines| > 0
    ensures Join(Push(lines, c)) == Join(lines) + [c]
  {
    var r, n := Push(lines, c), |lines|;
    if c == '\n' {
      assert r[..n] == lines;
      assert Join(lines) + "\n" + "" == Join(lines) + [c];
    } else if n > 1 {
      var init := Join(lines[..n - 1]) + "\n";
      assert r[..n - 1] == lines[..n - 1];
      assert init + (lines[n - 1] + [c]) == init + lines[n - 1] + [c];
    }
  }

  lemma {:induction false} JoinSplit(s: string)
    ensures Join(Split(s)) == s
  {
    hide Push;
    if s != "" {
      var n := |s| - 1;
      JoinSplit(s[..n]);
      JoinPush(Split(s[..n]), s[n]);
      assert s == s[..n] + [s[n]];
    }
  }

  lemma {:induction false} SplitAllFlat(s: string)
    ensures AllFlat(Split(s))
  {
    if s != "" {
      SplitAllFlat(s[..|s| - 1]);
    }
  }

  lemma {:induction false} PushAppend(a: seq<string>, b: seq<string>, c: char)
    requires |b| > 0
    ensures Push(a + b, c) == a + Push(b, c)
  {
    if c == '\n' {
      assert a + b + [""] == a + (b + [""]);
    }
  }

  lemma {:induction false} SplitAppend(a: string, b: string)
    ensures Split(a + "\n" + b) == Split(a) + Split(b)
  {
    var s := a + "\n" + b;
    var n := |s| - 1;
    if b == "" {
      assert s[..n] == a && s[n] == '\n';
    } else {
      var m := |b| - 1;
      assert s[..n] == a + "\n" + b[..m] && s[n] == b[m];
      SplitAppend(a, b[..m]);
      PushAppend(Split(a), Split(b[..m]), b[m]);
    }
  }

  lemma {:induction false} PushOnLine(line: string, c: char)
    ensures c != '\n' ==> Push([line], c) == [line + [c]]
  {
  }

  lemma {:induction false} SplitFlat(line: string)
    requires Flat(line)
    ensures Split(line) == [line]
  {
    hide Push;
    if line != "" {
      var n := |line| - 1;
      SplitFlat(line[..n]);
      assert line[n] in line;
      PushOnLine(line[..n], line[n]);
      assert line[..n] + [line[n]] == line;
    }
  }

  lemma {:induction false} SplitJoin(lines: seq<string>)
    requires lines != [] && AllFlat(lines)
    ensures Split(Join(lines)) == lines
  {
    var n := |lines| - 1;
    SplitFlat(lines[n]);
    if n > 0 {
      SplitJoin(lines[..n]);
      SplitAppend(Join(lines[..n]), lines[n]);
      assert lines == lines[..n] + [lines[n]];
    }
  }

  lemma {:induction false} JoinAppend(a: seq<string>, b: seq<string>)
    requires a != [] && b != []
    ensures Join(a + b) == Join(a) + "\n" + Join(b)
  {
    var n := |b| - 1;
    assert (a + b)[..|a| + n] == a + b[..n];
    assert (a + b)[|a| + n] == b[n];
    if n == 0 {
      assert a + b[..n] == a;
    } else {
      JoinAppend(a, b[..n]);
      assert Join(a) + "\n" + Join(b[..n]) + "\n" + b[n] == Join(a) + "\n" + (Join(b[..n]) + "\n" + b[n]);
    }
  }

  // ---------------------------------------------------------------- lines that keep their newline

  predicate EndsNL(s: string) { s != "" && s[|s| - 1] == '\n' }

  /** `s` without one final newline. */
  function Strip(s: string): string { if EndsNL(s) then s[..|s| - 1] else s }

  function Strips(tokens: seq<string>): (lines: seq<string>)
    ensures |lines| == |tokens|
  {
    seq(|tokens|, i requires 0 <= i < |tokens| => Strip(tokens[i]))
  }

  function Ended(lines: seq<string>): (tokens: seq<string>)
    ensures |tokens| == |lines|
  {
    seq(|lines|, i requires 0 <= i < |lines| => lines[i] + "\n")
  }

  function Concat(tokens: seq<string>): string {
    if tokens == [] then "" else Concat(tokens[..|tokens| - 1]) + tokens[|tokens| - 1]
  }

  /** The lines of `s` with their newlines; nothing stands for the empty rest after a final newline. */
  function Tokens(s: string): seq<string> {
    var parts := Split(s);
    var last := parts[|parts| - 1];
    Ended(parts[..|parts| - 1]) + if last == "" then [] else [last]
  }

  /** A list of lines that keep their newlines: only the last one may lack it, and none is empty. */
  ghost predicate Terminated(tokens: seq<string>) {
    forall i :: 0 <= i < |tokens| ==> TerminatedAt(tokens, i)
  }

  ghost predicate TerminatedAt(tokens: seq<string>, i: int)
    requires 0 <= i < |tokens|
  {
    tokens[i] != "" && Flat(Strip(tokens[i])) && (i < |tokens| - 1 ==> EndsNL(tokens[i]))
  }

  lemma {:induction false} ConcatEnded(lines: seq<string>, last: string)
    ensures Concat(Ended(lines)) + last == Join(lines + [last])
  {
    var n := |lines| - 1;
    assert (lines + [last])[..|lines|] == lines;
    if n >= 0 {
      ConcatEnded(lines[..n], lines[n]);
      assert Ended(lines)[..n] == Ended(lines[..n]);
      assert lines == lines[..n] + [lines[n]];
      assert Concat(Ended(lines[..n])) + (lines[n] + "\n") == Concat(Ended(lines[..n])) + lines[n] + "\n";
    }
  }

  lemma {:induction false} ConcatSnoc(tokens: seq<string>, t: string)
    ensures Concat(tokens + [t]) == Concat(tokens) + t
  {
    assert (tokens + [t])[..|tokens|] == tokens;
  }

  /** Tokenizing loses nothing. */
  lemma {:induction false} ConcatTokens(s: string)
    ensures Concat(Tokens(s)) == s
  {
    var parts := Split(s);
    var init, last := parts[..|parts| - 1], parts[|parts| - 1];
    JoinSplit(s);
    assert parts == init + [last];
    ConcatEnded(init, last);
    if last != "" {
      ConcatSnoc(Ended(init), last);
    } else {
      assert Ended(init) + [] == Ended(init);
    }
  }

  lemma {:induction false} StripsEnded(lines: seq<string>, last: string)
    requires last == "" || !EndsNL(last)
    ensures var rest := if last == "" then [] else [last]; Strips(Ended(lines) + rest) == lines + rest
  {
    var rest := if last == "" then [] else [last];
    forall i | 0 <= i < |lines|
      ensures Strip((Ended(lines) + rest)[i]) == lines[i]
    {
      assert Ended(lines)[i] == lines[i] + "\n";
    }
  }

  /** The last line is empty exactly when the text is, or when it ends with a newline. */
  lemma {:induction false} SplitEnds(s: string)
    ensures var parts := Split(s);
      && !EndsNL(parts[|parts| - 1])
      && (parts[|parts| - 1] == "" <==> s == "" || EndsNL(s))
  {
    SplitAllFlat(s);
  }

  lemma {:induction false} StripsTokens(s: string)
    ensures Split(s) == Strips(Tokens(s)) + if s == "" || EndsNL(s) then [""] else []
  {
    hide Split, EndsNL, Strip;
    var parts := Split(s);
    var init, last := parts[..|parts| - 1], parts[|parts| - 1];
    SplitEnds(s);
    StripsEnded(init, last);
    assert parts == init + [last];
  }

  /** Tokenizing gives one token per line, and only the last one can lack its newline. */
  lemma {:induction false} TokensTerminated(s: string)
    ensures Terminated(Tokens(s))
    ensures Tokens(s) != [] <==> s != ""
    ensures s != "" ==> EndsNL(Tokens(s)[|Tokens(s)| - 1]) == EndsNL(s)
  {
    var parts := Split(s);
    var init, last := parts[..|parts| - 1], parts[|parts| - 1];
    SplitAllFlat(s);
    SplitEnds(s);
    StripsEnded(init, last);
    var tokens := Tokens(s);
    forall i | 0 <= i < |tokens|
      ensures TerminatedAt(tokens, i)
    {
      assert Strip(tokens[i]) == Strips(tokens)[i];
      assert i < |init| ==> tokens[i] == init[i] + "\n";
      assert Flat(parts[i]);
    }
  }

  /** The lines of a block of tokens, as the patch code recovers them from the joined text. */
  function BlockLines(value: string): seq<string> { Split(Strip(value)) }

  lemma {:induction false} BlockLinesSnoc(x: string, t: string)
    requires EndsNL(x) && t != "" && Flat(Strip(t))
    ensures BlockLines(x + t) == BlockLines(x) + [Strip(t)]
    ensures x + t != "" && EndsNL(x + t) == EndsNL(t)
  {
    hide Split;
    assert (x + t)[|x + t| - 1] == t[|t| - 1];
    assert x == Strip(x) + "\n";
    assert Strip(x + t) == Strip(x) + "\n" + Strip(t);
    SplitFlat(Strip(t));
    SplitAppend(Strip(x), Strip(t));
  }

  lemma {:induction false} TerminatedInit(tokens: seq<string>)
    requires Terminated(tokens) && |tokens| > 1
    ensures Terminated(tokens[..|tokens| - 1]) && EndsNL(tokens[|tokens| - 2])
  {
    var n := |tokens| - 1;
    assert TerminatedAt(tokens, n - 1);
    forall i | 0 <= i < n
      ensures TerminatedAt(tokens[..n], i)
    {
      assert TerminatedAt(tokens, i);
    }
  }

  lemma {:induction false} BlockLinesOfTokens(tokens: seq<string>)
    requires tokens != [] && Terminated(tokens)
    ensures BlockLines(Concat(tokens)) == Strips(tokens)
    ensures Concat(tokens) != "" && EndsNL(Concat(tokens)) == EndsNL(tokens[|tokens| - 1])
  {
    hide Strip, Split, BlockLines;
    var n := |tokens| - 1;
    var init, t := tokens[..n], tokens[n];
    assert TerminatedAt(tokens, n);
    if n == 0 {
      assert Concat(tokens) == t;
      OneLine(t);
      assert Strips(tokens) == [Strip(t)];
    } else {
      TerminatedInit(tokens);
      BlockLinesOfTokens(init);
      BlockLinesSnoc(Concat(init), t);
      assert Strips(tokens) == Strips(init) + [Strip(t)];
    }
  }

  lemma {:induction false} OneLine(t: string)
    requires Flat(Strip(t))
    ensures BlockLines(t) == [Strip(t)]
  {
    SplitFlat(Strip(t));
  }

  // ---------------------------------------------------------------- the tokenizer of the patch code

  /** What splitting at `\n` or `\r\n` returns when the separators are captured: text, break, ..., text. */
  function SplitBreaks(s: string): (parts: seq<string>)
    ensures |parts| > 0
  {
    if s == "" then [""] else PushBreak(SplitBreaks(s[..|s| - 1]), s[|s| - 1])
  }

  function PushBreak(parts: seq<string>, c: char): (r: seq<string>)
    requires |parts| > 0
    ensures |r| > 0
  {
    var n := |parts| - 1;
    var last := parts[n];
    if c != '\n' then parts[n := last + [c]]
    else if last != "" && last[|last| - 1] == '\r' then parts[n := last[..|last| - 1]] + ["\r\n", ""]
    else parts + ["\n", ""]
  }

  ghost predicate BreaksMatch(parts: seq<string>, lines: seq<string>) {
    && |lines| > 0 && |parts| == 2 * |lines| - 1
    && parts[|parts| - 1] == lines[|lines| - 1]
    && forall i :: 0 <= i < |lines| - 1 ==> parts[2 * i] + parts[2 * i + 1] == lines[i] + "\n"
  }

  lemma {:induction false} PushBreakMatches(parts: seq<string>, lines: seq<string>, c: char)
    requires BreaksMatch(parts, lines)
    ensures BreaksMatch(PushBreak(parts, c), Push(lines, c))
  {
    var parts', lines' := PushBreak(parts, c), Push(lines, c);
    var last := parts[|parts| - 1];
    forall i | 0 <= i < |lines'| - 1
      ensures parts'[2 * i] + parts'[2 * i + 1] == lines'[i] + "\n"
    {
      if i < |lines| - 1 {
        assert parts[2 * i] + parts[2 * i + 1] == lines[i] + "\n";
      } else if last != "" && last[|last| - 1] == '\r' {
        assert last[..|last| - 1] + "\r\n" == last + "\n";
      }
    }
  }

  lemma {:induction false} SplitBreaksFacts(s: string)
    ensures BreaksMatch(SplitBreaks(s), Split(s))
  {
    if s != "" {
      var n := |s| - 1;
      SplitBreaksFacts(s[..n]);
      PushBreakMatches(SplitBreaks(s[..n]), Split(s[..n]), s[n]);
    }
  }

  /** The tokens after `i` pieces have been merged. */
  ghost predicate Merged(parts: seq<string>, lines: seq<string>, i: nat, ret: seq<string>) {
    && i <= |parts| && |ret| == (i + 1) / 2
    && (forall j :: 0 <= j < i / 2 ==> j < |lines| && ret[j] == lines[j] + "\n")
    && (i % 2 == 1 ==> ret[i / 2] == parts[i - 1])
  }

  /** Merges each piece of text with the break that follows it. */
  method Tokenize(value: string) returns (ret: seq<string>)
    ensures ret == Tokens(value)
  {
    var linesAndNewlines := SplitBreaks(value);
    ghost var parts, lines := linesAndNewlines, Split(value);
    SplitBreaksFacts(value);
    if linesAndNewlines[|linesAndNewlines| - 1] == "" {
      linesAndNewlines := linesAndNewlines[..|linesAndNewlines| - 1];
    }
    ret := [];
    var i := 0;
    while i < |linesAndNewlines|
      invariant i <= |linesAndNewlines|
      invariant Merged(parts, lines, i, ret)
    {
      var line := linesAndNewlines[i];
      if i % 2 == 1 {
        assert parts[2 * (i / 2)] + parts[2 * (i / 2) + 1] == lines[i / 2] + "\n";
        ret := ret[|ret| - 1 := ret[|ret| - 1] + line];
      } else {
        ret := ret + [line];
      }
      i := i + 1;
    }
    MergedIsTokens(value, parts, lines, i, ret);
  }

  lemma {:induction false} MergedIsTokens(value: string, parts: seq<string>, lines: seq<string>, i: nat,
                                          ret: seq<string>)
    requires lines == Split(value) && BreaksMatch(parts, lines) && Merged(parts, lines, i, ret)
    requires i == if parts[|parts| - 1] == "" then |parts| - 1 else |parts|
    ensures ret == Tokens(value)
  {
    hide Split;
    var init, last := lines[..|lines| - 1], lines[|lines| - 1];
    assert i / 2 == |init|;
    assert ret[..|init|] == Ended(init);
    if last != "" {
      assert ret == ret[..|init|] + [last];
    }
  }
}
