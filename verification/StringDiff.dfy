/** The diff of two strings: the answers that need no search, and the search on their tokens with the values joined. */
module StringDiff {
  import opened Text
  import opened EditScript
  import opened ScriptValues
  import DiffSearch

  datatype TextChange = TextChange(kind: Kind, value: string)

  ghost predicate Joins(tokens: seq<Change<string>>, changes: seq<TextChange>) {
    && |changes| == |tokens|
    && forall j :: 0 <= j < |tokens| ==> changes[j] == TextChange(tokens[j].kind, Concat(tokens[j].value))
  }

  /** What is left of the changes without the removed ones, and without the added ones. */
  function NewString(changes: seq<TextChange>): string {
    if changes == [] then ""
    else
      var last := changes[|changes| - 1];
      NewString(changes[..|changes| - 1]) + if last.kind == Removed then "" else last.value
  }

  function OldString(changes: seq<TextChange>): string {
    if changes == [] then ""
    else
      var last := changes[|changes| - 1];
      OldString(changes[..|changes| - 1]) + if last.kind == Added then "" else last.value
  }

  lemma {:induction false} ConcatAppend(a: seq<string>, b: seq<string>)
    ensures Concat(a + b) == Concat(a) + Concat(b)
  {
    if b == [] {
      assert a + b == a;
    } else {
      var init, last := b[..|b| - 1], b[|b| - 1];
      ConcatAppend(a, init);
      assert (a + b)[..|a + b| - 1] == a + init;
    }
  }

  lemma {:induction false} JoinsSpell(tokens: seq<Change<string>>, changes: seq<TextChange>)
    requires Joins(tokens, changes)
    ensures NewString(changes) == Concat(NewText(tokens))
    ensures OldString(changes) == Concat(OldText(tokens))
  {
    if tokens != [] {
      var init, last := tokens[..|tokens| - 1], tokens[|tokens| - 1];
      JoinsSpell(init, changes[..|changes| - 1]);
      ConcatAppend(NewText(init), if last.kind == Removed then [] else last.value);
      ConcatAppend(OldText(init), if last.kind == Added then [] else last.value);
    }
  }

  /** Where only equal tokens match, the values spell the old tokens exactly as well. */
  lemma {:induction false} EqualSpells<T>(p: Problem<T>, tokens: seq<Change<T>>)
    requires Spells(p, tokens)
    requires forall left: T, right: T :: p.equals(left, right) ==> left == right
    ensures OldText(tokens) == p.oldTokens && NewText(tokens) == p.newTokens
  {
    hide NewText, OldText;
    forall i | 0 <= i < |p.oldTokens|
      ensures OldText(tokens)[i] == p.oldTokens[i]
    {
      assert OldTokenOk(p, i, OldText(tokens)[i]);
    }
    forall i | 0 <= i < |p.newTokens|
      ensures NewText(tokens)[i] == p.newTokens[i]
    {
      assert NewTokenOk(p, i, NewText(tokens)[i]);
    }
  }

  method JoinValues(tokens: seq<Change<string>>) returns (changes: seq<TextChange>)
    ensures Joins(tokens, changes)
  {
    changes := [];
    for i := 0 to |tokens|
      invariant |changes| == i
      invariant forall j :: 0 <= j < i ==> changes[j] == TextChange(tokens[j].kind, Concat(tokens[j].value))
    {
      changes := changes + [TextChange(tokens[i].kind, Concat(tokens[i].value))];
    }
  }

  lemma {:induction false} SingleSpells(c: TextChange)
    ensures NewString([c]) == if c.kind == Removed then "" else c.value
    ensures OldString([c]) == if c.kind == Added then "" else c.value
  {
    assert [c][..0] == [];
  }

  /** The diff of two strings under any tokenizer, of which `p` holds the tokens, and any match relation. */
  method Diff(oldString: string, newString: string, p: Problem<string>)
    returns (changes: seq<TextChange>, ghost tokens: seq<Change<string>>)
    ensures if newString == oldString then changes == [TextChange(Kept, newString)]
            else if newString == "" then changes == [TextChange(Removed, oldString)]
            else if oldString == "" then changes == [TextChange(Added, newString)]
            else Joins(tokens, changes) && DiffSearch.Answers(p, tokens)
    ensures Concat(p.newTokens) == newString && !p.useLongestToken ==> NewString(changes) == newString
    ensures Concat(p.oldTokens) == oldString && Concat(p.newTokens) == newString
            && (forall left: string, right: string :: p.equals(left, right) ==> left == right)
            ==> OldString(changes) == oldString && NewString(changes) == newString
  {
    hide DiffSearch.ShortestScript, NewTokenOk, OldTokenOk, Concat, NewText, OldText, NewString, OldString;
    tokens := [];
    if newString == oldString {
      changes := [TextChange(Kept, newString)];
      SingleSpells(changes[0]);
    } else if newString == "" {
      changes := [TextChange(Removed, oldString)];
      SingleSpells(changes[0]);
    } else if oldString == "" {
      changes := [TextChange(Added, newString)];
      SingleSpells(changes[0]);
    } else {
      var found := DiffSearch.Diff(p);
      changes := JoinValues(found);
      tokens := found;
      JoinsSpell(tokens, changes);
      if forall left: string, right: string :: p.equals(left, right) ==> left == right {
        EqualSpells(p, tokens);
      }
    }
  }
}
