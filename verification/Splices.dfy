/** Removing and inserting items of a list by index, one splice at a time. */
module Splices {

  /** The items of `a` whose index is not in `gone`. */
  function Keep<T>(a: seq<T>, gone: set<nat>): seq<T> {
    if a == [] then []
    else Keep(a[..|a| - 1], gone) + if |a| - 1 in gone then [] else [a[|a| - 1]]
  }

  function RemoveAt<T>(a: seq<T>, i: nat): (r: seq<T>)
    requires i < |a|
    ensures |r| == |a| - 1
  {
    a[..i] + a[i + 1..]
  }

  function InsertAt<T>(a: seq<T>, i: nat, v: T): (r: seq<T>)
    requires i <= |a|
    ensures |r| == |a| + 1
  {
    a[..i] + [v] + a[i..]
  }

  /** The members of `s` below `n`, in ascending order. */
  function Ascending(s: set<nat>, n: nat): (r: seq<nat>)
    ensures forall i :: 0 <= i < |r| ==> r[i] in s && r[i] < n
  {
    if n == 0 then [] else Ascending(s, n - 1) + if n - 1 in s then [n - 1] else []
  }

  /** Strictly increasing, and below `n`. */
  ghost predicate Increasing(idx: seq<nat>, n: nat) {
    idx == [] || (idx[|idx| - 1] < n && Increasing(idx[..|idx| - 1], idx[|idx| - 1]))
  }

  function SetOf(idx: seq<nat>): set<nat> { set x | x in idx }

  lemma {:induction false} AscendingFacts(s: set<nat>, n: nat)
    ensures Increasing(Ascending(s, n), n)
    ensures forall x :: x in SetOf(Ascending(s, n)) <==> x in s && x < n
  {
    hide Increasing;
    if n == 0 {
      NothingIncreases(n);
    } else {
      AscendingFacts(s, n - 1);
      var r := Ascending(s, n - 1);
      if n - 1 in s {
        IncreasingSnoc(r, n - 1, n);
      } else {
        assert r + [] == r;
        IncreasingWiden(r, n - 1, n);
      }
    }
  }

  lemma {:induction false} NothingIncreases(n: nat)
    ensures Increasing([], n)
  {
  }

  lemma {:induction false} IncreasingSnoc(idx: seq<nat>, i: nat, n: nat)
    requires Increasing(idx, i) && i < n
    ensures Increasing(idx + [i], n)
  {
    assert (idx + [i])[..|idx|] == idx;
  }

  lemma {:induction false} IncreasingWiden(idx: seq<nat>, n: nat, n': nat)
    requires Increasing(idx, n) && n <= n'
    ensures Increasing(idx, n')
  {
  }

  lemma {:induction false} IncreasingBelow(idx: seq<nat>, n: nat)
    requires Increasing(idx, n)
    ensures forall x :: x in idx ==> x < n
  {
    if idx != [] {
      var last := idx[|idx| - 1];
      IncreasingBelow(idx[..|idx| - 1], last);
      assert idx == idx[..|idx| - 1] + [last];
    }
  }

  // ---------------------------------------------------------------- removing

  /** Splices out the listed indices, largest first. */
  function RemoveAll<T>(a: seq<T>, idx: seq<nat>): (r: seq<T>)
    requires Increasing(idx, |a|)
    ensures |r| == |a| - |idx|
    decreases |idx|
  {
    if idx == [] then a
    else
      var i := idx[|idx| - 1];
      IncreasingWiden(idx[..|idx| - 1], i, |a| - 1);
      RemoveAll(RemoveAt(a, i), idx[..|idx| - 1])
  }

  /** Splices the values in at their final indices, smallest first. */
  function InsertAll<T>(a: seq<T>, ins: map<nat, T>, idx: seq<nat>): (r: seq<T>)
    requires Increasing(idx, |a| + |idx|) && forall x :: x in idx ==> x in ins
    ensures |r| == |a| + |idx|
    decreases |idx|
  {
    if idx == [] then a
    else
      var i := idx[|idx| - 1];
      IncreasingBelow(idx, |a| + |idx|);
      IncreasingWiden(idx[..|idx| - 1], i, |a| + |idx| - 1);
      InsertAt(InsertAll(a, ins, idx[..|idx| - 1]), i, ins[i])
  }

  /** Items past the last removed index stay as they are. */
  lemma {:induction false} KeepTail<T>(a: seq<T>, gone: set<nat>, i: nat)
    requires i <= |a| && forall x :: x in gone ==> x < i
    ensures Keep(a, gone) == Keep(a[..i], gone) + a[i..]
  {
    if i == |a| {
      assert a[..i] == a && a[i..] == [];
    } else {
      var n := |a| - 1;
      KeepTail(a[..n], gone, i);
      assert a[..n][..i] == a[..i];
      assert a[i..] == a[..n][i..] + [a[n]];
    }
  }

  lemma {:induction false} KeepSame<T>(a: seq<T>, gone: set<nat>, gone': set<nat>)
    requires forall x :: 0 <= x < |a| ==> (x in gone <==> x in gone')
    ensures Keep(a, gone) == Keep(a, gone')
  {
    if a != [] {
      KeepSame(a[..|a| - 1], gone, gone');
    }
  }

  /** Taking out the largest removed index first leaves the rest of the work unchanged. */
  lemma {:induction false} KeepRemove<T>(a: seq<T>, gone: set<nat>, i: nat)
    requires i < |a| && i in gone && forall x :: x in gone ==> x <= i
    ensures Keep(RemoveAt(a, i), gone - {i}) == Keep(a, gone)
  {
    var r := RemoveAt(a, i);
    KeepTail(a, gone, i + 1);
    KeepTail(r, gone - {i}, i);
    assert a[..i + 1][..i] == a[..i];
    assert r[..i] == a[..i] && r[i..] == a[i + 1..];
    KeepSame(a[..i], gone, gone - {i});
  }

  lemma {:induction false} SetOfSnoc(idx: seq<nat>, n: nat)
    requires idx != [] && Increasing(idx, n)
    ensures var i := idx[|idx| - 1];
      SetOf(idx) - {i} == SetOf(idx[..|idx| - 1]) && i in SetOf(idx) && forall x :: x in SetOf(idx) ==> x <= i
  {
    var i, init := idx[|idx| - 1], idx[..|idx| - 1];
    IncreasingBelow(init, i);
    assert idx == init + [i];
  }

  lemma {:induction false} RemoveAllKeeps<T>(a: seq<T>, idx: seq<nat>)
    requires Increasing(idx, |a|)
    ensures RemoveAll(a, idx) == Keep(a, SetOf(idx))
    decreases |idx|
  {
    if idx == [] {
      KeepTail(a, {}, 0);
      assert SetOf(idx) == {};
      assert a[..0] == [] && a[0..] == a;
    } else {
      var i := idx[|idx| - 1];
      IncreasingWiden(idx[..|idx| - 1], i, |a| - 1);
      RemoveAllKeeps(RemoveAt(a, i), idx[..|idx| - 1]);
      SetOfSnoc(idx, |a|);
      KeepRemove(a, SetOf(idx), i);
    }
  }

  // ---------------------------------------------------------------- inserting

  /** Inserting at their final indices the items that were removed from there restores the list. */
  lemma {:induction false} InsertUndoesKeep<T>(target: seq<T>, idx: seq<nat>, base: seq<T>, ins: map<nat, T>)
    requires Increasing(idx, |target|) && base == Keep(target, SetOf(idx))
    requires forall x :: x in idx ==> x < |target| && x in ins && ins[x] == target[x]
    ensures |target| == |base| + |idx|
    ensures InsertAll(base, ins, idx) == target
    decreases |idx|
  {
    hide Keep;
    RemoveAllKeeps(target, idx);
    if idx == [] {
      assert SetOf(idx) == {};
    } else {
      var i, init := idx[|idx| - 1], idx[..|idx| - 1];
      var target' := RemoveAt(target, i);
      SetOfSnoc(idx, |target|);
      KeepRemove(target, SetOf(idx), i);
      IncreasingWiden(init, i, |target'|);
      IncreasingBelow(init, i);
      forall x | x in init
        ensures x in ins && ins[x] == target'[x]
      {
        assert idx == init + [i];
        assert x in idx;
      }
      InsertUndoesKeep(target', init, base, ins);
      assert InsertAt(target', i, target[i]) == target;
    }
  }
}
