/** Edit scripts between two token sequences, and the distance they are measured against.

    A script is the list of counted components that the diff search accumulates. `Traces` says what it
    means for such a list to be a walk through the two texts; `Dist` is an independent recursive edit
    distance. The lemmas below are the facts about the grid that make the greedy search optimal. */
module EditScript {

  datatype Kind = Kept | Added | Removed

  datatype Component = Component(count: nat, kind: Kind)

  /** The input of one run: both token sequences, the (arbitrary) match relation, whose first argument is
      a new token and whose second an old one, and the longest-token option with its length measure. */
  datatype Problem<!T> = Problem(oldTokens: seq<T>, newTokens: seq<T>, equals: (T, T) -> bool,
                                 useLongestToken: bool, length: T -> nat)
  {
    ghost predicate Match(x: nat, y: nat) {
      x < |oldTokens| && y < |newTokens| && equals(newTokens[y], oldTokens[x])
    }
  }

  // ---------------------------------------------------------------- measures of a script

  function OldPart(c: Component): nat { if c.kind == Added then 0 else c.count }

  function NewPart(c: Component): nat { if c.kind == Removed then 0 else c.count }

  function EditPart(c: Component): nat { if c.kind == Kept then 0 else c.count }

  function OldSpan(cs: seq<Component>): nat {
    if cs == [] then 0 else OldSpan(cs[..|cs| - 1]) + OldPart(cs[|cs| - 1])
  }

  function NewSpan(cs: seq<Component>): nat {
    if cs == [] then 0 else NewSpan(cs[..|cs| - 1]) + NewPart(cs[|cs| - 1])
  }

  function Edits(cs: seq<Component>): nat {
    if cs == [] then 0 else Edits(cs[..|cs| - 1]) + EditPart(cs[|cs| - 1])
  }

  function KeptTokens(cs: seq<Component>): nat {
    if cs == [] then 0
    else KeptTokens(cs[..|cs| - 1]) + if cs[|cs| - 1].kind == Kept then cs[|cs| - 1].count else 0
  }

  lemma {:induction false} SpanSnoc(cs: seq<Component>, c: Component)
    ensures OldSpan(cs + [c]) == OldSpan(cs) + OldPart(c)
    ensures NewSpan(cs + [c]) == NewSpan(cs) + NewPart(c)
    ensures Edits(cs + [c]) == Edits(cs) + EditPart(c)
  {
    assert (cs + [c])[..|cs|] == cs;
  }

  /** Every script spends exactly the tokens it does not keep. */
  lemma {:induction false} SpansAndEdits(cs: seq<Component>)
    ensures OldSpan(cs) + NewSpan(cs) == Edits(cs) + 2 * KeptTokens(cs)
  {
    if cs != [] {
      SpansAndEdits(cs[..|cs| - 1]);
    }
  }

  // ---------------------------------------------------------------- what a script means

  /** `cs` walks from the start of both texts: it stays inside them, and every kept token is matched. */
  ghost predicate Traces<T>(p: Problem<T>, cs: seq<Component>) {
    cs == [] ||
    var init, last := cs[..|cs| - 1], cs[|cs| - 1];
    && Traces(p, init)
    && OldSpan(cs) <= |p.oldTokens|
    && NewSpan(cs) <= |p.newTokens|
    && (last.kind == Kept ==> KeptRun(p, OldSpan(init), NewSpan(init), last.count))
  }

  /** The `n` tokens from `x` in the old text match, one by one, those from `y` in the new one. */
  ghost predicate KeptRun<T>(p: Problem<T>, x: nat, y: nat, n: nat) {
    n == 0 || (KeptRun(p, x, y, n - 1) && p.Match(x + n - 1, y + n - 1))
  }

  lemma {:induction false} KeptRunAt<T>(p: Problem<T>, x: nat, y: nat, n: nat, t: nat)
    requires KeptRun(p, x, y, n) && t < n
    ensures p.Match(x + t, y + t)
  {
    if t < n - 1 {
      KeptRunAt(p, x, y, n - 1, t);
    }
  }

  /** A script that turns all of the old text into all of the new one. */
  ghost predicate Complete<T>(p: Problem<T>, cs: seq<Component>) {
    Traces(p, cs) && OldSpan(cs) == |p.oldTokens| && NewSpan(cs) == |p.newTokens|
  }

  /** No component of kind `first` is directly followed by one of kind `second`. */
  ghost predicate Never(cs: seq<Component>, first: Kind, second: Kind) {
    |cs| < 2 ||
    (Never(cs[..|cs| - 1], first, second) && !(cs[|cs| - 2].kind == first && cs[|cs| - 1].kind == second))
  }

  /** No component is empty, and adjacent ones differ in kind. */
  ghost predicate Alternates(cs: seq<Component>) {
    cs == [] ||
    var n := |cs|;
    cs[n - 1].count > 0 && Alternates(cs[..n - 1]) && (n > 1 ==> cs[n - 2].kind != cs[n - 1].kind)
  }

  lemma {:induction false} TracesSnoc<T>(p: Problem<T>, cs: seq<Component>, c: Component)
    requires Traces(p, cs)
    requires OldSpan(cs + [c]) <= |p.oldTokens| && NewSpan(cs + [c]) <= |p.newTokens|
    requires c.kind == Kept ==> KeptRun(p, OldSpan(cs), NewSpan(cs), c.count)
    ensures Traces(p, cs + [c])
  {
    assert (cs + [c])[..|cs|] == cs;
  }

  lemma {:induction false} TracesPrefix<T>(p: Problem<T>, cs: seq<Component>, q: nat)
    requires Traces(p, cs) && q <= |cs|
    ensures Traces(p, cs[..q])
  {
    if q == |cs| {
      assert cs[..q] == cs;
    } else {
      TracesPrefix(p, cs[..|cs| - 1], q);
      assert cs[..|cs| - 1][..q] == cs[..q];
    }
  }

  // ---------------------------------------------------------------- the distance

  /** The least number of additions and removals from position (x, y) to the end of both texts. */
  ghost function Dist<T>(p: Problem<T>, x: nat, y: nat): nat
    requires x <= |p.oldTokens| && y <= |p.newTokens|
    decreases |p.oldTokens| - x + |p.newTokens| - y
  {
    if x == |p.oldTokens| then |p.newTokens| - y
    else if y == |p.newTokens| then |p.oldTokens| - x
    else if p.Match(x, y) then Dist(p, x + 1, y + 1)
    else 1 + Min(Dist(p, x + 1, y), Dist(p, x, y + 1))
  }

  function Min(a: nat, b: nat): nat { if a < b then a else b }

  /** One edit changes the distance by at most one, in either direction. */
  lemma {:induction false} DistLipschitz<T>(p: Problem<T>, x: nat, y: nat)
    requires x <= |p.oldTokens| && y <= |p.newTokens|
    ensures x < |p.oldTokens| ==> Dist(p, x + 1, y) <= Dist(p, x, y) + 1 && Dist(p, x, y) <= Dist(p, x + 1, y) + 1
    ensures y < |p.newTokens| ==> Dist(p, x, y + 1) <= Dist(p, x, y) + 1 && Dist(p, x, y) <= Dist(p, x, y + 1) + 1
    decreases |p.oldTokens| - x + |p.newTokens| - y
  {
    if x < |p.oldTokens| {
      DistLipschitz(p, x + 1, y);
    }
    if y < |p.newTokens| {
      DistLipschitz(p, x, y + 1);
    }
  }

  /** The distance never increases along a diagonal, matched or not. */
  lemma {:induction false} DistDiagonal<T>(p: Problem<T>, x: nat, y: nat)
    requires x < |p.oldTokens| && y < |p.newTokens|
    ensures Dist(p, x + 1, y + 1) <= Dist(p, x, y)
  {
    DistLipschitz(p, x + 1, y);
    DistLipschitz(p, x, y + 1);
  }

  lemma {:induction false} DistAlongDiagonal<T>(p: Problem<T>, x: nat, y: nat, n: nat)
    requires x + n <= |p.oldTokens| && y + n <= |p.newTokens|
    ensures Dist(p, x + n, y + n) <= Dist(p, x, y)
    ensures KeptRun(p, x, y, n) ==> Dist(p, x + n, y + n) == Dist(p, x, y)
  {
    if n > 0 {
      DistAlongDiagonal(p, x, y, n - 1);
      DistDiagonal(p, x + n - 1, y + n - 1);
    }
  }

  lemma {:induction false} DistAlongEdits<T>(p: Problem<T>, x: nat, y: nat, dx: nat, dy: nat)
    requires x + dx <= |p.oldTokens| && y + dy <= |p.newTokens|
    ensures Dist(p, x, y) <= dx + dy + Dist(p, x + dx, y + dy)
    decreases dx + dy
  {
    if dx > 0 {
      DistLipschitz(p, x, y);
      DistAlongEdits(p, x + 1, y, dx - 1, dy);
    } else if dy > 0 {
      DistLipschitz(p, x, y);
      DistAlongEdits(p, x, y + 1, dx, dy - 1);
    }
  }

  /** The lower bound: whatever a walk has spent so far, the distance from the start is at most that plus the
      distance that remains. */
  lemma {:induction false} LowerBound<T>(p: Problem<T>, cs: seq<Component>)
    requires Traces(p, cs)
    ensures OldSpan(cs) <= |p.oldTokens| && NewSpan(cs) <= |p.newTokens|
    ensures Dist(p, 0, 0) <= Edits(cs) + Dist(p, OldSpan(cs), NewSpan(cs))
  {
    if cs != [] {
      var init, last := cs[..|cs| - 1], cs[|cs| - 1];
      LowerBound(p, init);
      var x, y := OldSpan(init), NewSpan(init);
      match last.kind
      case Kept => DistAlongDiagonal(p, x, y, last.count);
      case Added => DistAlongEdits(p, x, y, 0, last.count);
      case Removed => DistAlongEdits(p, x, y, last.count, 0);
    }
  }

  /** A complete script whose edits equal the distance is beaten by no other, in edits or in kept tokens. */
  lemma {:induction false} CheapestIsMinimal<T>(p: Problem<T>, cs: seq<Component>, other: seq<Component>)
    requires Complete(p, cs) && Edits(cs) == Dist(p, 0, 0)
    requires Complete(p, other)
    ensures Edits(cs) <= Edits(other)
    ensures KeptTokens(cs) >= KeptTokens(other)
  {
    LowerBound(p, other);
    SpansAndEdits(cs);
    SpansAndEdits(other);
  }

  /** The diagonal alone decides how many more edits are unavoidable. */
  lemma {:induction false} DistAtLeastShift<T>(p: Problem<T>, x: nat, y: nat)
    requires x <= |p.oldTokens| && y <= |p.newTokens|
    ensures |p.newTokens| - y - (|p.oldTokens| - x) <= Dist(p, x, y) <= |p.newTokens| - y + |p.oldTokens| - x
    ensures Dist(p, x, y) == 0 && !p.Match(x, y) ==> x == |p.oldTokens| && y == |p.newTokens|
    decreases |p.oldTokens| - x + |p.newTokens| - y
  {
    if x < |p.oldTokens| && y < |p.newTokens| {
      DistAtLeastShift(p, x + 1, y);
      DistAtLeastShift(p, x, y + 1);
      DistAtLeastShift(p, x + 1, y + 1);
    }
  }
}
