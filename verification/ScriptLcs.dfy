/** The shortest edit script against the longest common subsequence: what one keeps is what the other finds. */
module ScriptLcs {
  import opened EditScript
  import Lcs

  /** The match relation of a problem, as positions of the old and of the new text. */
  function Matches<T>(p: Problem<T>): Lcs.Matcher {
    (x: nat, y: nat) => x < |p.oldTokens| && y < |p.newTokens| && p.equals(p.newTokens[y], p.oldTokens[x])
  }

  lemma {:induction false} KeptRunLengthens<T>(p: Problem<T>, x: nat, y: nat, n: nat)
    requires KeptRun(p, x, y, n)
    ensures Lcs.Len(Matches(p), x + n, y + n) == Lcs.Len(Matches(p), x, y) + n
  {
    if n > 0 {
      KeptRunLengthens(p, x, y, n - 1);
    }
  }

  /** The tokens that a walk keeps form a common subsequence of what it has passed. */
  lemma {:induction false} KeptAtMostLcs<T>(p: Problem<T>, cs: seq<Component>)
    requires Traces(p, cs)
    ensures KeptTokens(cs) <= Lcs.Len(Matches(p), OldSpan(cs), NewSpan(cs))
  {
    hide Lcs.Len, KeptRun;
    if cs != [] {
      var init, last := cs[..|cs| - 1], cs[|cs| - 1];
      KeptAtMostLcs(p, init);
      if last.kind == Kept {
        KeptRunLengthens(p, OldSpan(init), NewSpan(init), last.count);
      } else {
        Lcs.LenMonotone(Matches(p), OldSpan(init), NewSpan(init), OldSpan(cs), NewSpan(cs));
      }
    }
  }

  lemma {:induction false} OneMore<T>(p: Problem<T>, cs: seq<Component>, kind: Kind)
    requires Traces(p, cs)
    requires kind != Added ==> OldSpan(cs) < |p.oldTokens|
    requires kind != Removed ==> NewSpan(cs) < |p.newTokens|
    requires kind == Kept ==> p.Match(OldSpan(cs), NewSpan(cs))
    ensures var r := cs + [Component(1, kind)];
      && Traces(p, r)
      && OldSpan(r) == OldSpan(cs) + (if kind == Added then 0 else 1)
      && NewSpan(r) == NewSpan(cs) + (if kind == Removed then 0 else 1)
      && KeptTokens(r) == KeptTokens(cs) + (if kind == Kept then 1 else 0)
  {
    var c := Component(1, kind);
    SpanSnoc(cs, c);
    if kind == Kept {
      assert KeptRun(p, OldSpan(cs), NewSpan(cs), 0);
    }
    TracesSnoc(p, cs, c);
    assert (cs + [c])[..|cs|] == cs;
  }

  /** The walk `cs` ends at these positions and keeps a whole longest common subsequence. */
  ghost predicate KeepsLcs<T>(p: Problem<T>, cs: seq<Component>, i: nat, j: nat) {
    && Traces(p, cs) && OldSpan(cs) == i && NewSpan(cs) == j
    && KeptTokens(cs) == Lcs.Len(Matches(p), i, j)
  }

  lemma {:induction false} KeepOne<T>(p: Problem<T>, cs: seq<Component>, i: nat, j: nat)
    requires 0 < i <= |p.oldTokens| && 0 < j <= |p.newTokens| && p.Match(i - 1, j - 1)
    requires KeepsLcs(p, cs, i - 1, j - 1)
    ensures KeepsLcs(p, cs + [Component(1, Kept)], i, j)
  {
    hide Traces, OldSpan, NewSpan, KeptTokens;
    OneMore(p, cs, Kept);
  }

  lemma {:induction false} AddOne<T>(p: Problem<T>, cs: seq<Component>, i: nat, j: nat)
    requires i <= |p.oldTokens| && 0 < j <= |p.newTokens|
    requires KeepsLcs(p, cs, i, j - 1) && Lcs.Len(Matches(p), i, j) == Lcs.Len(Matches(p), i, j - 1)
    ensures KeepsLcs(p, cs + [Component(1, Added)], i, j)
  {
    hide Traces, OldSpan, NewSpan, KeptTokens, Lcs.Len;
    OneMore(p, cs, Added);
  }

  lemma {:induction false} RemoveOne<T>(p: Problem<T>, cs: seq<Component>, i: nat, j: nat)
    requires 0 < i <= |p.oldTokens| && j <= |p.newTokens|
    requires KeepsLcs(p, cs, i - 1, j) && Lcs.Len(Matches(p), i, j) == Lcs.Len(Matches(p), i - 1, j)
    ensures KeepsLcs(p, cs + [Component(1, Removed)], i, j)
  {
    hide Traces, OldSpan, NewSpan, KeptTokens, Lcs.Len;
    OneMore(p, cs, Removed);
  }

  /** Where the last two tokens do not match, leaving one of them out costs nothing. */
  lemma {:induction false} LeaveOut(m: Lcs.Matcher, i: nat, j: nat)
    requires i + j > 0 && !(i > 0 && j > 0 && m(i - 1, j - 1))
    ensures (j > 0 && Lcs.Len(m, i, j) == Lcs.Len(m, i, j - 1)) || (i > 0 && Lcs.Len(m, i, j) == Lcs.Len(m, i - 1, j))
  {
  }

  /** Some walk keeps a whole longest common subsequence. */
  lemma {:induction false} LcsIsKept<T>(p: Problem<T>, i: nat, j: nat) returns (cs: seq<Component>)
    requires i <= |p.oldTokens| && j <= |p.newTokens|
    ensures KeepsLcs(p, cs, i, j)
    decreases i + j
  {
    hide KeepsLcs, Lcs.Len;
    var m := Matches(p);
    if i == 0 && j == 0 {
      cs := [];
      Nothing(p);
    } else if i > 0 && j > 0 && m(i - 1, j - 1) {
      cs := LcsIsKept(p, i - 1, j - 1);
      KeepOne(p, cs, i, j);
      cs := cs + [Component(1, Kept)];
    } else {
      LeaveOut(m, i, j);
      if j > 0 && Lcs.Len(m, i, j) == Lcs.Len(m, i, j - 1) {
        cs := LcsIsKept(p, i, j - 1);
        AddOne(p, cs, i, j);
        cs := cs + [Component(1, Added)];
      } else {
        cs := LcsIsKept(p, i - 1, j);
        RemoveOne(p, cs, i, j);
        cs := cs + [Component(1, Removed)];
      }
    }
  }

  lemma {:induction false} Nothing<T>(p: Problem<T>)
    ensures KeepsLcs(p, [], 0, 0)
  {
  }

  /** A complete script that no other beats keeps exactly the longest common subsequence, so its edits are all the
      other tokens. */
  lemma {:induction false} ShortestKeepsLcs<T>(p: Problem<T>, cs: seq<Component>)
    requires Complete(p, cs)
    requires forall other :: Complete(p, other) ==> KeptTokens(other) <= KeptTokens(cs)
    ensures Edits(cs) + 2 * Lcs.Len(Matches(p), |p.oldTokens|, |p.newTokens|) == |p.oldTokens| + |p.newTokens|
  {
    hide Traces;
    var best := LcsIsKept(p, |p.oldTokens|, |p.newTokens|);
    assert Complete(p, best);
    KeptAtMostLcs(p, cs);
    SpansAndEdits(cs);
  }
}
