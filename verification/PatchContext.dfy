/** How much unchanged text the hunks of a patch show. */
module PatchContext {
  import opened Text
  import opened PatchApply
  import opened PatchSections

  predicate Context(line: string) { StartsWith(line, ' ') }

  predicate Note(line: string) { StartsWith(line, '\\') }

  /** The context lines at the start of a body. */
  function Lead(body: seq<string>): (n: nat)
    ensures n <= |body|
  {
    if body == [] then 0
    else
      var init := body[..|body| - 1];
      if Lead(init) == |init| && Context(body[|body| - 1]) then |body| else Lead(init)
  }

  /** The context lines at its end; notes do not count. */
  function Trail(body: seq<string>): nat {
    if body == [] then 0
    else
      var init := body[..|body| - 1];
      if Context(body[|body| - 1]) then Trail(init) + 1 else if Note(body[|body| - 1]) then Trail(init) else 0
  }

  /** Nowhere more than eight context lines in a row. */
  ghost predicate Dense(body: seq<string>) { forall k :: 0 <= k <= |body| ==> Trail(body[..k]) <= 8 }

  ghost predicate HasChange(body: seq<string>) {
    exists k :: 0 <= k < |body| && !Context(body[k]) && !Note(body[k])
  }

  /** A hunk shows four lines of context, or all that there are at the start and at the end of the text, and joins
      changes at most eight lines apart. */
  ghost predicate InContext(s: Sides, h: Section) {
    && HasChange(h.body) && Dense(h.body)
    && Lead(h.body) <= 4 && (Lead(h.body) < 4 ==> h.header.oldStart == 1)
    && Trail(h.body) <= 4
    && (Trail(h.body) < 4 ==> h.header.oldStart - 1 + h.header.oldLength == |s.oldLines|)
  }

  /** And between two hunks there is a line that neither shows. */
  ghost predicate Spaced(s: Sides, hs: seq<Section>) {
    hs == [] ||
    (&& InContext(s, hs[0]) && Spaced(s, hs[1..])
     && (hs[1..] != [] ==> OldEnd(hs[1..]) < hs[0].header.oldStart - 1))
  }

  // ---------------------------------------------------------------- bodies that grow

  lemma {:induction false} Grown(body: seq<string>, line: string)
    ensures Lead(body + [line]) == if Lead(body) == |body| && Context(line) then |body| + 1 else Lead(body)
    ensures Trail(body + [line])
      == if Context(line) then Trail(body) + 1 else if Note(line) then Trail(body) else 0
    ensures Dense(body) && Trail(body + [line]) <= 8 ==> Dense(body + [line])
    ensures HasChange(body + [line]) <==> HasChange(body) || (!Context(line) && !Note(line))
  {
    var all := body + [line];
    assert all[..|body|] == body;
    forall k | 0 <= k <= |body|
      ensures all[..k] == body[..k]
    {
    }
    assert all[..|all|] == all;
    assert forall k :: 0 <= k < |body| ==> all[k] == body[k];
    assert all[|body|] == line;
  }

  /** Lines of context behind a change, or at the start. */
  lemma {:induction false} MoreContext(cur: seq<string>, lines: seq<string>)
    requires Dense(cur) && Trail(cur) + |lines| <= 8
    ensures var body := cur + Prefixed(' ', lines);
      && Dense(body) && Trail(body) == Trail(cur) + |lines|
      && (HasChange(body) <==> HasChange(cur))
      && Lead(body) == if Lead(cur) == |cur| then |body| else Lead(cur)
  {
    hide Dense, HasChange, Lead, Trail;
    if lines == [] {
      assert cur + Prefixed(' ', lines) == cur;
    } else {
      var n := |lines| - 1;
      MoreContext(cur, lines[..n]);
      Grown(cur + Prefixed(' ', lines[..n]), [' '] + lines[n]);
      assert cur + Prefixed(' ', lines) == cur + Prefixed(' ', lines[..n]) + [[' '] + lines[n]];
    }
  }

  lemma {:induction false} MoreChanges(cur: seq<string>, m: char, lines: seq<string>)
    requires Dense(cur) && lines != [] && (m == '+' || m == '-')
    ensures var body := cur + Prefixed(m, lines);
      Dense(body) && Trail(body) == 0 && HasChange(body) && Lead(body) == Lead(cur)
  {
    hide Dense, HasChange, Lead, Trail;
    var n := |lines| - 1;
    if n > 0 {
      MoreChanges(cur, m, lines[..n]);
    } else {
      assert cur + Prefixed(m, lines[..n]) == cur;
    }
    Grown(cur + Prefixed(m, lines[..n]), [m] + lines[n]);
    assert cur + Prefixed(m, lines) == cur + Prefixed(m, lines[..n]) + [[m] + lines[n]];
  }

  /** A note changes none of this. */
  lemma {:induction false} MoreNotes(cur: seq<string>, note: string)
    requires Dense(cur) && Note(note)
    ensures var body := cur + [note];
      && Dense(body) && Trail(body) == Trail(cur) && Lead(body) == Lead(cur) && (HasChange(body) <==> HasChange(cur))
  {
    hide HasChange, Lead, Trail;
    assert cur[..|cur|] == cur;
    Grown(cur, note);
  }

  lemma {:induction false} NoContext()
    ensures Dense([]) && Trail([]) == 0 && Lead([]) == 0 && !HasChange([])
  {
  }

  lemma {:induction false} LeadOfChanged(body: seq<string>)
    requires HasChange(body)
    ensures Lead(body) < |body|
  {
    if Lead(body) == |body| {
      AllContext(body);
    }
  }

  lemma {:induction false} AllContext(body: seq<string>)
    requires Lead(body) == |body|
    ensures forall k :: 0 <= k < |body| ==> Context(body[k])
  {
    if body != [] {
      AllContext(body[..|body| - 1]);
    }
  }
}
