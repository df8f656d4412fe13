/** Turning the counted components of a finished search into the changes that the caller receives. */
module ScriptValues {
  import opened EditScript

  /** A component object once its `value` has been filled in (a list of tokens, not yet joined). */
  datatype Change<T> = Change(kind: Kind, count: nat, value: seq<T>)

  // ---------------------------------------------------------------- order

  /** The components with every removal moved in front of an addition that directly precedes it. */
  function Reordered(cs: seq<Component>): (r: seq<Component>)
    ensures |r| == |cs|
  {
    if cs == [] then []
    else
      var r, last := Reordered(cs[..|cs| - 1]), cs[|cs| - 1];
      if last.kind == Removed && r != [] && r[|r| - 1].kind == Added
      then r[..|r| - 1] + [last, r[|r| - 1]]
      else r + [last]
  }

  lemma {:induction false} SpanPair(cs: seq<Component>, c: Component, d: Component)
    ensures cs + [c, d] == cs + [c] + [d]
    ensures OldSpan(cs + [c, d]) == OldSpan(cs) + OldPart(c) + OldPart(d)
    ensures NewSpan(cs + [c, d]) == NewSpan(cs) + NewPart(c) + NewPart(d)
    ensures Edits(cs + [c, d]) == Edits(cs) + EditPart(c) + EditPart(d)
  {
    SpanSnoc(cs, c);
    SpanSnoc(cs + [c], d);
    assert cs + [c, d] == cs + [c] + [d];
  }

  lemma {:induction false} ReorderedSpans(cs: seq<Component>)
    ensures OldSpan(Reordered(cs)) == OldSpan(cs)
    ensures NewSpan(Reordered(cs)) == NewSpan(cs)
    ensures Edits(Reordered(cs)) == Edits(cs)
  {
    if cs != [] {
      var r, last := Reordered(cs[..|cs| - 1]), cs[|cs| - 1];
      ReorderedSpans(cs[..|cs| - 1]);
      if last.kind == Removed && r != [] && r[|r| - 1].kind == Added {
        SpanPair(r[..|r| - 1], last, r[|r| - 1]);
      } else {
        SpanSnoc(r, last);
      }
    }
  }

  /** Moving a removal across an addition changes neither text. */
  lemma {:induction false} ReorderedTraces<T>(p: Problem<T>, cs: seq<Component>)
    requires Traces(p, cs)
    ensures Traces(p, Reordered(cs))
  {
    if cs != [] {
      var init, last := cs[..|cs| - 1], cs[|cs| - 1];
      var r := Reordered(init);
      ReorderedTraces(p, init);
      ReorderedSpans(init);
      ReorderedSpans(cs);
      if last.kind == Removed && r != [] && r[|r| - 1].kind == Added {
        var q, added := r[..|r| - 1], r[|r| - 1];
        SpanSnoc(q, last);
        SpanPair(q, last, added);
        TracesSnoc(p, q, last);
        TracesSnoc(p, q + [last], added);
      } else {
        TracesSnoc(p, r, last);
      }
    }
  }

  /** What a caller sees between two kept blocks: at most one removal, then at most one addition. */
  ghost predicate Canonical(cs: seq<Component>) {
    Alternates(cs) && Never(cs, Added, Removed)
  }

  lemma {:induction false} NeverSnoc(cs: seq<Component>, c: Component)
    requires Canonical(cs) && c.count > 0
    requires cs != [] ==> cs[|cs| - 1].kind != c.kind && !(cs[|cs| - 1].kind == Added && c.kind == Removed)
    ensures Canonical(cs + [c])
  {
    assert (cs + [c])[..|cs|] == cs;
  }

  lemma {:induction false} TidyInit(cs: seq<Component>)
    requires cs != [] && Alternates(cs) && Never(cs, Removed, Added)
    ensures Alternates(cs[..|cs| - 1]) && Never(cs[..|cs| - 1], Removed, Added) && cs[|cs| - 1].count > 0
    ensures |cs| > 1 ==> var prev := cs[..|cs| - 1][|cs| - 2];
      prev.kind != cs[|cs| - 1].kind && !(prev.kind == Removed && cs[|cs| - 1].kind == Added)
  {
  }

  lemma {:induction false} ReorderedLast(cs: seq<Component>)
    requires cs != []
    ensures var r, last := Reordered(cs[..|cs| - 1]), cs[|cs| - 1];
      Reordered(cs) ==
        if last.kind == Removed && r != [] && r[|r| - 1].kind == Added
        then r[..|r| - 1] + [last, r[|r| - 1]]
        else r + [last]
  {
  }

  lemma {:induction false} NothingCanonical()
    ensures Canonical([]) && Reordered([]) == []
  {
  }

  /** If the search never left a removal directly followed by an addition, the swaps make the list canonical. */
  lemma {:induction false} ReorderedCanonical(cs: seq<Component>)
    requires Alternates(cs) && Never(cs, Removed, Added)
    ensures Canonical(Reordered(cs))
    ensures cs != [] ==>
      var r, last := Reordered(cs), cs[|cs| - 1];
      if last.kind == Removed && |cs| > 1 && cs[|cs| - 2].kind == Added
      then r[|r| - 1].kind == Added && r[|r| - 2] == last
      else r[|r| - 1] == last
  {
    hide Alternates, Never, Canonical, Reordered;
    NothingCanonical();
    if cs != [] {
      var init, last := cs[..|cs| - 1], cs[|cs| - 1];
      ReorderedLast(cs);
      TidyInit(cs);
      ReorderedCanonical(init);
      var r := Reordered(init);
      if init != [] && last.kind == Removed && r[|r| - 1].kind == Added {
        ReorderedLast(init);
        TidyInit(init);
        ReorderedCanonical(init[..|init| - 1]);
        MovedCanonical(r[..|r| - 1], last, r[|r| - 1]);
      } else {
        NeverSnoc(r, last);
      }
    }
  }

  lemma {:induction false} MovedCanonical(q: seq<Component>, removed: Component, added: Component)
    requires Canonical(q) && removed.count > 0 && added.count > 0
    requires removed.kind == Removed && added.kind == Added && (q != [] ==> q[|q| - 1].kind == Kept)
    ensures Canonical(q + [removed, added])
  {
    hide Canonical;
    NeverSnoc(q, removed);
    NeverSnoc(q + [removed], added);
    assert q + [removed, added] == q + [removed] + [added];
  }

  // ---------------------------------------------------------------- values

  /** The tokens of component `c` when the old and new texts have been consumed up to `x` and `y`. */
  function Value<T>(p: Problem<T>, x: nat, y: nat, c: Component): (v: seq<T>)
    requires c.kind != Added ==> x + c.count <= |p.oldTokens|
    requires c.kind != Removed ==> y + c.count <= |p.newTokens|
    ensures |v| == c.count
  {
    match c.kind
    case Removed => p.oldTokens[x..x + c.count]
    case Added => p.newTokens[y..y + c.count]
    case Kept =>
      if !p.useLongestToken then p.newTokens[y..y + c.count]
      else seq(c.count, t requires 0 <= t < c.count => Longest(p, p.oldTokens[x + t], p.newTokens[y + t]))
  }

  function Longest<T>(p: Problem<T>, oldToken: T, newToken: T): T {
    if p.length(oldToken) > p.length(newToken) then oldToken else newToken
  }

  /** Each component with the slice of text it stands for. */
  ghost function Valued<T>(p: Problem<T>, cs: seq<Component>): (changes: seq<Change<T>>)
    requires Traces(p, cs)
    ensures |changes| == |cs|
  {
    if cs == [] then []
    else
      var init, last := cs[..|cs| - 1], cs[|cs| - 1];
      assert OldSpan(cs) <= |p.oldTokens| && NewSpan(cs) <= |p.newTokens|;
      Valued(p, init) + [Change(last.kind, last.count, Value(p, OldSpan(init), NewSpan(init), last))]
  }

  function Components<T>(changes: seq<Change<T>>): (cs: seq<Component>)
    ensures |cs| == |changes|
  {
    seq(|changes|, i requires 0 <= i < |changes| => Component(changes[i].count, changes[i].kind))
  }

  function Blank<T>(cs: seq<Component>): (changes: seq<Change<T>>) {
    seq(|cs|, i requires 0 <= i < |cs| => Change(cs[i].kind, cs[i].count, []))
  }

  lemma {:induction false} ValuedComponents<T>(p: Problem<T>, cs: seq<Component>)
    requires Traces(p, cs)
    ensures Components(Valued(p, cs)) == cs
  {
    if cs != [] {
      ValuedComponents(p, cs[..|cs| - 1]);
      var v := Valued(p, cs);
      assert Components(v)[..|cs| - 1] == Components(Valued(p, cs[..|cs| - 1]));
      assert cs == cs[..|cs| - 1] + [cs[|cs| - 1]];
    }
  }

  lemma {:induction false} ValuedSnoc<T>(p: Problem<T>, cs: seq<Component>, c: Component)
    requires Traces(p, cs) && Traces(p, cs + [c])
    ensures OldSpan(cs + [c]) == OldSpan(cs) + OldPart(c)
    ensures NewSpan(cs + [c]) == NewSpan(cs) + NewPart(c)
    ensures OldSpan(cs + [c]) <= |p.oldTokens| && NewSpan(cs + [c]) <= |p.newTokens|
    ensures Valued(p, cs + [c])
         == Valued(p, cs) + [Change(c.kind, c.count, Value(p, OldSpan(cs), NewSpan(cs), c))]
  {
    SpanSnoc(cs, c);
    assert (cs + [c])[..|cs|] == cs;
  }

  /** An edit is a slice of one text only, so its value does not depend on the position in the other. */
  lemma {:induction false} EditValue<T>(p: Problem<T>, x: nat, x': nat, y: nat, y': nat, c: Component)
    requires c.kind == Added ==> y + c.count <= |p.newTokens| && y' == y
    requires c.kind == Removed ==> x + c.count <= |p.oldTokens| && x' == x
    requires c.kind != Kept
    ensures Value(p, x, y, c) == Value(p, x', y', c)
  {
  }

  /** The step of `BuildValues` that swaps: the values computed before the swap are still right after it. */
  lemma {:induction false} ValuedSwap<T>(p: Problem<T>, q: seq<Component>, added: Component, removed: Component)
    requires added.kind == Added && removed.kind == Removed
    requires Traces(p, q + [added]) && Traces(p, q + [removed, added])
    ensures Traces(p, q)
    ensures OldSpan(q + [added]) + removed.count <= |p.oldTokens|
    ensures |Valued(p, q + [added])| == |q| + 1
    ensures Valued(p, q + [removed, added])
         == Valued(p, q)
          + [Change(Removed, removed.count, Value(p, OldSpan(q + [added]), NewSpan(q + [added]), removed)),
             Valued(p, q + [added])[|q|]]
    ensures Valued(p, q + [added])[..|q|] == Valued(p, q)
  {
    hide Value, Reordered, Valued, Traces, OldSpan, NewSpan;
    TracesPrefix(p, q + [added], |q|);
    assert (q + [added])[..|q|] == q;
    assert q + [removed, added] == q + [removed] + [added];
    TracesPrefix(p, q + [removed, added], |q| + 1);
    assert (q + [removed, added])[..|q| + 1] == q + [removed];
    ValuedSnoc(p, q, added);
    ValuedSnoc(p, q, removed);
    ValuedSnoc(p, q + [removed], added);
    EditValue(p, OldSpan(q), OldSpan(q + [removed]), NewSpan(q), NewSpan(q), added);
    EditValue(p, OldSpan(q), OldSpan(q), NewSpan(q), NewSpan(q + [added]), removed);
  }

  lemma {:induction false} TracesBounds<T>(p: Problem<T>, cs: seq<Component>)
    requires Traces(p, cs)
    ensures OldSpan(cs) <= |p.oldTokens| && NewSpan(cs) <= |p.newTokens|
  {
  }

  lemma {:induction false} Progress<T>(p: Problem<T>, cs: seq<Component>, i: nat)
    requires Traces(p, cs) && i < |cs|
    ensures cs[..i + 1] == cs[..i] + [cs[i]]
    ensures Traces(p, cs[..i]) && Traces(p, cs[..i + 1])
    ensures Traces(p, Reordered(cs[..i])) && Traces(p, Reordered(cs[..i + 1]))
    ensures OldSpan(cs[..i + 1]) == OldSpan(cs[..i]) + OldPart(cs[i])
    ensures NewSpan(cs[..i + 1]) == NewSpan(cs[..i]) + NewPart(cs[i])
    ensures OldSpan(cs[..i + 1]) <= |p.oldTokens| && NewSpan(cs[..i + 1]) <= |p.newTokens|
    ensures OldSpan(Reordered(cs[..i])) == OldSpan(cs[..i])
    ensures NewSpan(Reordered(cs[..i])) == NewSpan(cs[..i])
  {
    hide Traces, Reordered, OldSpan, NewSpan;
    TracesPrefix(p, cs, i);
    TracesPrefix(p, cs, i + 1);
    TracesBounds(p, cs[..i + 1]);
    ReorderedTraces(p, cs[..i]);
    ReorderedTraces(p, cs[..i + 1]);
    ReorderedSpans(cs[..i]);
    assert cs[..i + 1] == cs[..i] + [cs[i]];
    SpanSnoc(cs[..i], cs[i]);
  }

  /** The array after `k` iterations: the first `k` entries are valued and in order, the others untouched. */
  ghost predicate Filled<T>(p: Problem<T>, components: seq<Component>, k: nat, changes: seq<Change<T>>) {
    && k <= |components| == |changes|
    && Traces(p, components)
    && Traces(p, Reordered(components[..k]))
    && changes[..k] == Valued(p, Reordered(components[..k]))
    && changes[k..] == Blank(components[k..])
  }

  ghost predicate IsValue<T>(p: Problem<T>, components: seq<Component>, k: nat, v: Change<T>) {
    && k < |components|
    && OldSpan(components[..k]) + OldPart(components[k]) <= |p.oldTokens|
    && NewSpan(components[..k]) + NewPart(components[k]) <= |p.newTokens|
    && v == Change(components[k].kind, components[k].count,
                   Value(p, OldSpan(components[..k]), NewSpan(components[..k]), components[k]))
  }

  lemma {:induction false} BlankTail<T>(components: seq<Component>, k: nat, changes: seq<Change<T>>,
                                        after: seq<Change<T>>)
    requires k < |components| == |changes| == |after|
    requires changes[k..] == Blank(components[k..])
    requires after[k + 1..] == changes[k + 1..]
    ensures after[k + 1..] == Blank(components[k + 1..])
  {
    assert changes[k + 1..] == changes[k..][1..];
    assert components[k + 1..] == components[k..][1..];
  }

  lemma {:induction false} LastKind<T>(p: Problem<T>, components: seq<Component>, k: nat, changes: seq<Change<T>>)
    requires Filled(p, components, k, changes) && k > 0
    ensures changes[k - 1].kind == Reordered(components[..k])[k - 1].kind
    ensures changes[k - 1] == Valued(p, Reordered(components[..k]))[k - 1]
  {
    var r := Reordered(components[..k]);
    ValuedComponents(p, r);
    assert changes[k - 1] == changes[..k][k - 1];
    assert r[k - 1] == Components(Valued(p, r))[k - 1];
  }

  lemma {:induction false} FilledPlain<T>(p: Problem<T>, components: seq<Component>, k: nat, changes: seq<Change<T>>,
                                          v: Change<T>)
    requires Filled(p, components, k, changes) && IsValue(p, components, k, v)
    requires !(v.kind == Removed && k > 0 && changes[k - 1].kind == Added)
    ensures Filled(p, components, k + 1, changes[k := v])
  {
    var r := Reordered(components[..k]);
    Progress(p, components, k);
    if k > 0 {
      LastKind(p, components, k, changes);
    }
    assert components[..k + 1][..k] == components[..k];
    ValuedSnoc(p, r, components[k]);
    var after := changes[k := v];
    assert after[..k + 1] == changes[..k] + [v];
    BlankTail(components, k, changes, after);
  }

  lemma {:induction false} ReorderedSwap(components: seq<Component>, k: nat)
    requires 0 < k < |components| && components[k].kind == Removed
    requires Reordered(components[..k])[k - 1].kind == Added
    ensures var r := Reordered(components[..k]);
      Reordered(components[..k + 1]) == r[..k - 1] + [components[k], r[k - 1]]
  {
    assert components[..k + 1][..k] == components[..k];
  }

  lemma {:induction false} SwapPrefix<T>(p: Problem<T>, r: seq<Component>, c: Component, vs: seq<Change<T>>)
    requires r != [] && r[|r| - 1].kind == Added && c.kind == Removed
    requires Traces(p, r) && Traces(p, r[..|r| - 1] + [c, r[|r| - 1]]) && vs == Valued(p, r)
    ensures OldSpan(r) + c.count <= |p.oldTokens| && NewSpan(r) <= |p.newTokens|
    ensures |vs| == |r|
    ensures Valued(p, r[..|r| - 1] + [c, r[|r| - 1]])
         == vs[..|r| - 1] + [Change(Removed, c.count, Value(p, OldSpan(r), NewSpan(r), c)), vs[|r| - 1]]
  {
    hide Value, Valued;
    var q, prev := r[..|r| - 1], r[|r| - 1];
    assert r == q + [prev];
    ValuedSwap(p, q, prev, c);
  }

  lemma {:induction false} SwapEntries<T>(changes: seq<Change<T>>, k: nat, v: Change<T>)
    requires 0 < k < |changes|
    ensures var after := changes[k - 1 := v][k := changes[k - 1]];
      && after[..k + 1] == changes[..k][..k - 1] + [v, changes[k - 1]]
      && after[k + 1..] == changes[k + 1..] && changes[..k][k - 1] == changes[k - 1]
  {
  }

  lemma {:induction false} FilledSwap<T>(p: Problem<T>, components: seq<Component>, k: nat, changes: seq<Change<T>>,
                                         v: Change<T>)
    requires Filled(p, components, k, changes) && IsValue(p, components, k, v)
    requires v.kind == Removed && k > 0 && changes[k - 1].kind == Added
    ensures Filled(p, components, k + 1, changes[k - 1 := v][k := changes[k - 1]])
  {
    hide Value, Valued, Traces, Reordered, Blank, OldSpan, NewSpan;
    Progress(p, components, k);
    LastKind(p, components, k, changes);
    ReorderedSwap(components, k);
    SwapPrefix(p, Reordered(components[..k]), components[k], changes[..k]);
    SwapEntries(changes, k, v);
    BlankTail(components, k, changes, changes[k - 1 := v][k := changes[k - 1]]);
  }

  lemma {:induction false} StartFilled<T>(p: Problem<T>, components: seq<Component>)
    requires Traces(p, components)
    ensures Filled(p, components, 0, Blank(components))
    ensures OldSpan(components[..0]) == 0 && NewSpan(components[..0]) == 0
  {
    assert components[..0] == [] && components[0..] == components;
  }

  /** The array of components is filled with values and reordered in place, in one left-to-right pass. */
  method BuildValues<T>(p: Problem<T>, components: seq<Component>) returns (changes: seq<Change<T>>)
    requires Traces(p, components)
    ensures Traces(p, Reordered(components))
    ensures changes == Valued(p, Reordered(components))
  {
    StartFilled(p, components);
    hide Valued, Traces, Reordered, Value, Blank, OldSpan, NewSpan;
    changes := Blank(components);
    var componentPos, newPos, oldPos := 0, 0, 0;
    while componentPos < |components|
      invariant Filled(p, components, componentPos, changes)
      invariant oldPos == OldSpan(components[..componentPos])
      invariant newPos == NewSpan(components[..componentPos])
    {
      var component := components[componentPos];
      Progress(p, components, componentPos);
      var value := Change(component.kind, component.count, Value(p, oldPos, newPos, component));
      if component.kind != Removed {
        FilledPlain(p, components, componentPos, changes, value);
        changes := changes[componentPos := value];
        newPos := newPos + component.count;
        if component.kind != Added {
          oldPos := oldPos + component.count;
        }
      } else {
        oldPos := oldPos + component.count;
        if componentPos > 0 && changes[componentPos - 1].kind == Added {
          FilledSwap(p, components, componentPos, changes, value);
          changes := changes[componentPos - 1 := value][componentPos := changes[componentPos - 1]];
        } else {
          FilledPlain(p, components, componentPos, changes, value);
          changes := changes[componentPos := value];
        }
      }
      componentPos := componentPos + 1;
    }
    assert components[..componentPos] == components && changes[..componentPos] == changes;
  }

  // ---------------------------------------------------------------- what the changes spell

  function NewText<T>(changes: seq<Change<T>>): seq<T> {
    if changes == [] then []
    else
      var last := changes[|changes| - 1];
      NewText(changes[..|changes| - 1]) + if last.kind == Removed then [] else last.value
  }

  function OldText<T>(changes: seq<Change<T>>): seq<T> {
    if changes == [] then []
    else
      var last := changes[|changes| - 1];
      OldText(changes[..|changes| - 1]) + if last.kind == Added then [] else last.value
  }

  ghost predicate NewTokenOk<T>(p: Problem<T>, i: nat, t: T) {
    i < |p.newTokens| && (t == p.newTokens[i] || (p.useLongestToken && p.equals(p.newTokens[i], t)))
  }

  ghost predicate OldTokenOk<T>(p: Problem<T>, i: nat, t: T) {
    i < |p.oldTokens| && (t == p.oldTokens[i] || p.equals(t, p.oldTokens[i]))
  }

  lemma {:induction false} ValueOk<T>(p: Problem<T>, x: nat, y: nat, c: Component, t: nat)
    requires x + OldPart(c) <= |p.oldTokens| && y + NewPart(c) <= |p.newTokens|
    requires c.kind == Kept ==> KeptRun(p, x, y, c.count)
    requires t < c.count
    ensures c.kind != Removed ==> NewTokenOk(p, y + t, Value(p, x, y, c)[t])
    ensures c.kind != Added ==> OldTokenOk(p, x + t, Value(p, x, y, c)[t])
    ensures c.kind != Removed && !p.useLongestToken ==> Value(p, x, y, c)[t] == p.newTokens[y + t]
  {
    if c.kind == Kept {
      var newToken, oldToken := p.newTokens[y + t], p.oldTokens[x + t];
      KeptRunAt(p, x, y, c.count, t);
      assert Value(p, x, y, c)[t] == if p.useLongestToken then Longest(p, oldToken, newToken) else newToken;
    }
  }

  lemma {:induction false} TracesLast<T>(p: Problem<T>, cs: seq<Component>)
    requires Traces(p, cs) && cs != []
    ensures var init, last := cs[..|cs| - 1], cs[|cs| - 1];
      && Traces(p, init)
      && OldSpan(cs) == OldSpan(init) + OldPart(last) <= |p.oldTokens|
      && NewSpan(cs) == NewSpan(init) + NewPart(last) <= |p.newTokens|
      && (last.kind == Kept ==> KeptRun(p, OldSpan(init), NewSpan(init), last.count))
      && Valued(p, cs)
         == Valued(p, init) + [Change(last.kind, last.count, Value(p, OldSpan(init), NewSpan(init), last))]
  {
    hide KeptRun, Value;
  }

  lemma {:induction false} TextSnoc<T>(changes: seq<Change<T>>, c: Change<T>)
    ensures NewText(changes + [c]) == NewText(changes) + if c.kind == Removed then [] else c.value
    ensures OldText(changes + [c]) == OldText(changes) + if c.kind == Added then [] else c.value
  {
    assert (changes + [c])[..|changes|] == changes;
  }

  lemma {:induction false} NothingSpells<T>(p: Problem<T>)
    ensures Traces(p, []) && NewText(Valued(p, [])) == [] && OldText(Valued(p, [])) == []
    ensures OldSpan([]) == 0 && NewSpan([]) == 0 && p.newTokens[..0] == []
  {
  }

  lemma {:induction false} NewOkJoin<T>(p: Problem<T>, s: seq<T>, v: seq<T>)
    requires forall i :: 0 <= i < |s| ==> NewTokenOk(p, i, s[i])
    requires forall t: nat :: t < |v| ==> NewTokenOk(p, |s| + t, v[t])
    ensures forall i :: 0 <= i < |s + v| ==> NewTokenOk(p, i, (s + v)[i])
  {
    hide NewTokenOk;
    forall i | 0 <= i < |s + v|
      ensures NewTokenOk(p, i, (s + v)[i])
    {
      assert i >= |s| ==> NewTokenOk(p, |s| + (i - |s|), v[i - |s|]);
    }
  }

  lemma {:induction false} OldOkJoin<T>(p: Problem<T>, s: seq<T>, v: seq<T>)
    requires forall i :: 0 <= i < |s| ==> OldTokenOk(p, i, s[i])
    requires forall t: nat :: t < |v| ==> OldTokenOk(p, |s| + t, v[t])
    ensures forall i :: 0 <= i < |s + v| ==> OldTokenOk(p, i, (s + v)[i])
  {
    hide OldTokenOk;
    forall i | 0 <= i < |s + v|
      ensures OldTokenOk(p, i, (s + v)[i])
    {
      assert i >= |s| ==> OldTokenOk(p, |s| + (i - |s|), v[i - |s|]);
    }
  }

  lemma {:induction false} PlainValue<T>(p: Problem<T>, x: nat, y: nat, c: Component)
    requires x + OldPart(c) <= |p.oldTokens| && y + NewPart(c) <= |p.newTokens|
    requires c.kind != Removed && !p.useLongestToken
    ensures p.newTokens[..y] + Value(p, x, y, c) == p.newTokens[..y + NewPart(c)]
  {
  }

  /** Kept and added values spell the new text; with the longest-token option a kept token may be the old one
      that it matches. */
  lemma {:induction false} SpellsNew<T>(p: Problem<T>, cs: seq<Component>)
    requires Traces(p, cs)
    ensures var s := NewText(Valued(p, cs));
      && |s| == NewSpan(cs) <= |p.newTokens|
      && (forall i :: 0 <= i < |s| ==> NewTokenOk(p, i, s[i]))
      && (!p.useLongestToken ==> s == p.newTokens[..NewSpan(cs)])
  {
    hide NewTokenOk, KeptRun, Value, Valued, Traces, NewText, NewSpan, OldSpan;
    if cs == [] {
      NothingSpells(p);
    } else {
      var init, last := cs[..|cs| - 1], cs[|cs| - 1];
      TracesLast(p, cs);
      SpellsNew(p, init);
      var s, v := NewText(Valued(p, init)), Value(p, OldSpan(init), NewSpan(init), last);
      TextSnoc(Valued(p, init), Change(last.kind, last.count, v));
      if last.kind == Removed {
        assert s + [] == s;
      } else {
        forall t: nat | t < |v|
          ensures NewTokenOk(p, |s| + t, v[t])
        {
          ValueOk(p, OldSpan(init), NewSpan(init), last, t);
        }
        NewOkJoin(p, s, v);
        if !p.useLongestToken {
          PlainValue(p, OldSpan(init), NewSpan(init), last);
        }
      }
    }
  }

  /** Kept and removed values spell the old text, up to the match relation on the kept tokens. */
  lemma {:induction false} SpellsOld<T>(p: Problem<T>, cs: seq<Component>)
    requires Traces(p, cs)
    ensures var s := OldText(Valued(p, cs));
      && |s| == OldSpan(cs) <= |p.oldTokens|
      && (forall i :: 0 <= i < |s| ==> OldTokenOk(p, i, s[i]))
  {
    hide OldTokenOk, KeptRun, Value, Valued, Traces, OldText, NewSpan, OldSpan;
    if cs == [] {
      NothingSpells(p);
    } else {
      var init, last := cs[..|cs| - 1], cs[|cs| - 1];
      TracesLast(p, cs);
      SpellsOld(p, init);
      var s, v := OldText(Valued(p, init)), Value(p, OldSpan(init), NewSpan(init), last);
      TextSnoc(Valued(p, init), Change(last.kind, last.count, v));
      if last.kind == Added {
        assert s + [] == s;
      } else {
        forall t: nat | t < |v|
          ensures OldTokenOk(p, |s| + t, v[t])
        {
          ValueOk(p, OldSpan(init), NewSpan(init), last, t);
        }
        OldOkJoin(p, s, v);
      }
    }
  }

  /** The changes spell both texts from the first token to the last, the new one exactly unless a kept token may be
      the longer one of the two that match. */
  ghost predicate Spells<T>(p: Problem<T>, changes: seq<Change<T>>) {
    && |NewText(changes)| == |p.newTokens| && |OldText(changes)| == |p.oldTokens|
    && (forall i :: 0 <= i < |p.newTokens| ==> NewTokenOk(p, i, NewText(changes)[i]))
    && (forall i :: 0 <= i < |p.oldTokens| ==> OldTokenOk(p, i, OldText(changes)[i]))
    && (!p.useLongestToken ==> NewText(changes) == p.newTokens)
  }

  lemma {:induction false} CompleteSpells<T>(p: Problem<T>, cs: seq<Component>)
    requires Complete(p, cs)
    ensures Spells(p, Valued(p, cs))
  {
    hide Traces, Valued, NewText, OldText, NewTokenOk, OldTokenOk;
    SpellsNew(p, cs);
    SpellsOld(p, cs);
  }

  /** The answer for texts that match token by token: one change with the new text. */
  lemma {:induction false} IdentitySpells<T>(p: Problem<T>)
    requires |p.oldTokens| == |p.newTokens| && KeptRun(p, 0, 0, |p.newTokens|)
    ensures Spells(p, [Change(Kept, |p.newTokens|, p.newTokens)])
  {
    hide NewText, OldText, KeptRun;
    var c := Change(Kept, |p.newTokens|, p.newTokens);
    KeptSpells(c);
    forall i | 0 <= i < |p.oldTokens|
      ensures OldTokenOk(p, i, p.newTokens[i])
    {
      KeptRunAt(p, 0, 0, |p.newTokens|, i);
    }
  }

  lemma {:induction false} KeptSpells<T>(c: Change<T>)
    requires c.kind == Kept
    ensures NewText([c]) == OldText([c]) == c.value
  {
    assert [c][..0] == [];
  }
}
