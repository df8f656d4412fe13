/** Cloning of object graphs that may share nodes and contain cycles. */
module DeepClone {
  import opened Wrappers

  /** `Other` stands for the objects that are never cloned, such as errors and weak maps. */
  datatype Kind = List | Record | Function | Other

  datatype Value = Undefined | Scalar(text: string) | Ref(node: Node)

  /** An array has `vals` only; any other object has a value for each of its own enumerable names, in order. */
  class Node {
    const kind: Kind
    var names: seq<string>
    var vals: seq<Value>

    constructor (kind: Kind, length: nat)
      ensures this.kind == kind && names == [] && vals == seq(length, _ => Undefined)
    {
      this.kind := kind;
      names := [];
      vals := seq(length, _ => Undefined);
    }
  }

  /** The traversed nodes and, at the same index, their clones. */
  class Stacks {
    var a: seq<Node>
    var b: seq<Node>

    constructor ()
      ensures a == [] && b == []
    {
      a, b := [], [];
    }
  }

  /** Whether a reference found inside another object is followed. */
  predicate Followed(kind: Kind) { kind.List? || kind.Record? }

  function CloneKind(kind: Kind): Kind { if kind.List? then List else Record }

  /** A set of well-formed nodes that holds every node its members refer to. */
  ghost predicate Graph(g: set<Node>)
    reads g
  {
    && (forall n :: n in g ==> if n.kind.List? then n.names == [] else |n.names| == |n.vals|)
    && (forall n, j :: n in g && 0 <= j < |n.vals| && n.vals[j].Ref? ==> n.vals[j].node in g)
  }

  ghost predicate Within(v: Value, g: set<Node>) { v.Ref? ==> v.node in g }

  function NodeSet(a: seq<Node>): set<Node> { set n | n in a }

  /** `w` is what the clone has in place of `v`. */
  ghost predicate Matches(v: Value, w: Value, a: seq<Node>, b: seq<Node>)
    requires |a| == |b|
  {
    if v.Ref? && Followed(v.node.kind) then Pairs(v, w, a, b) else w == v
  }

  /** The first `j` slots of `c` are those of `n`. */
  ghost predicate MirrorsUpTo(n: Node, c: Node, j: nat, a: seq<Node>, b: seq<Node>)
    requires |a| == |b|
    reads n, c
  {
    && j <= |n.vals| && j <= |c.vals|
    && c.kind == CloneKind(n.kind)
    && (if n.kind.List? then c.names == [] && |c.vals| == |n.vals|
        else |c.vals| == j <= |n.names| && c.names == n.names[..j])
    && (forall i :: 0 <= i < j ==> Matches(n.vals[i], c.vals[i], a, b))
  }

  ghost predicate Mirrors(n: Node, c: Node, a: seq<Node>, b: seq<Node>)
    requires |a| == |b|
    reads n, c
  {
    && c.kind == CloneKind(n.kind) && c.names == n.names && |c.vals| == |n.vals|
    && (forall i :: 0 <= i < |n.vals| ==> Matches(n.vals[i], c.vals[i], a, b))
  }

  ghost predicate Pairs(v: Value, w: Value, a: seq<Node>, b: seq<Node>)
    requires |a| == |b|
  {
    v.Ref? && w.Ref? && exists k :: 0 <= k < |a| && a[k] == v.node && b[k] == w.node
  }

  ghost predicate Distinct(a: seq<Node>) { forall i, j :: 0 <= i < j < |a| ==> a[i] != a[j] }

  /** The stacks pair distinct nodes of the graph with distinct nodes outside it. */
  ghost predicate Paired(a: seq<Node>, b: seq<Node>, g: set<Node>) {
    && |a| == |b| && Distinct(a) && Distinct(b)
    && (forall k :: 0 <= k < |a| ==> a[k] in g)
    && (forall k :: 0 <= k < |b| ==> b[k] !in g)
  }

  lemma {:induction false} MatchesGrow(v: Value, w: Value, a: seq<Node>, b: seq<Node>, a': seq<Node>, b': seq<Node>)
    requires |a| == |b| && |a'| == |b'| && a <= a' && b <= b' && Matches(v, w, a, b)
    ensures Matches(v, w, a', b')
  {
  }

  lemma {:induction false} NodeSetGrows(a: seq<Node>, a': seq<Node>)
    requires a <= a'
    ensures NodeSet(a) <= NodeSet(a')
  {
  }

  /** The slots filled so far stay right when the stacks grow. */
  lemma {:induction false} MirrorsGrow(n: Node, c: Node, j: nat, a: seq<Node>, b: seq<Node>, a': seq<Node>,
                                       b': seq<Node>)
    requires |a| == |b| && |a'| == |b'| && a <= a' && b <= b' && MirrorsUpTo(n, c, j, a, b)
    ensures MirrorsUpTo(n, c, j, a', b')
  {
    forall i | 0 <= i < j
      ensures Matches(n.vals[i], c.vals[i], a', b')
    {
      MatchesGrow(n.vals[i], c.vals[i], a, b, a', b');
    }
  }

  lemma {:induction false} GraphNode(g: set<Node>, n: Node)
    requires Graph(g) && n in g
    ensures if n.kind.List? then n.names == [] else |n.names| == |n.vals|
    ensures forall j :: 0 <= j < |n.vals| ==> Within(n.vals[j], g)
  {
  }

  /** The clone of a node that has been traversed before. */
  method Traversed(st: Stacks, n: Node) returns (found: bool, c: Node)
    requires |st.a| == |st.b|
    ensures found <==> n in NodeSet(st.a)
    ensures found ==> Pairs(Ref(n), Ref(c), st.a, st.b)
  {
    c := n;
    var k: int := |st.a|;
    while k > 0
      invariant 0 <= k <= |st.a| && forall i :: k <= i < |st.a| ==> st.a[i] != n
    {
      k := k - 1;
      if st.a[k] == n {
        return true, st.b[k];
      }
    }
    return false, c;
  }

  /** Clones `value`, which is part of another object if `nested`. */
  method BaseClone(value: Value, nested: bool, st: Stacks, ghost g: set<Node>) returns (result: Value)
    requires Graph(g) && Within(value, g) && Paired(st.a, st.b, g)
    modifies st
    ensures old(st.a) <= st.a && old(st.b) <= st.b && Paired(st.a, st.b, g)
    ensures forall k :: |old(st.b)| <= k < |st.b| ==> fresh(st.b[k]) && Mirrors(st.a[k], st.b[k], st.a, st.b)
    ensures nested || !value.Ref? ==> Matches(value, result, st.a, st.b)
    ensures !nested && value.Ref? && value.node.kind.Other? ==>
      result.Ref? && fresh(result.node) && result.node.kind.Record? && result.node.names == [] && result.node.vals == []
    ensures !nested && value.Ref? && !value.node.kind.Other? ==> Pairs(value, result, st.a, st.b)
    decreases g - NodeSet(st.a), 0
  {
    hide Graph, MirrorsUpTo;
    if !value.Ref? {
      return value;
    }
    var n := value.node;
    if !Followed(n.kind) && (nested || n.kind.Other?) {
      if nested {
        return value;
      }
      var empty := new Node(Record, 0);
      return Ref(empty);
    }
    var found, c := Traversed(st, n);
    if found {
      return Ref(c);
    }
    c := new Node(CloneKind(n.kind), if n.kind.List? then |n.vals| else 0);
    st.a, st.b := st.a + [n], st.b + [c];
    NodeSetGrows(old(st.a), st.a);
    assert st.a[|old(st.a)|] == n && st.b[|old(st.a)|] == c;
    assert n in NodeSet(st.a);
    Populate(n, c, st, g);
    return Ref(c);
  }

  /** Fills `c`, the last clone on the stack, with clones of the members of `n`. */
  method Populate(n: Node, c: Node, st: Stacks, ghost g: set<Node>)
    requires Graph(g) && Paired(st.a, st.b, g)
    requires st.a != [] && n == st.a[|st.a| - 1] && c == st.b[|st.b| - 1]
    requires c.kind == CloneKind(n.kind) && c.names == [] && |c.vals| == if n.kind.List? then |n.vals| else 0
    modifies st, c
    ensures old(st.a) <= st.a && old(st.b) <= st.b && Paired(st.a, st.b, g)
    ensures Mirrors(n, c, st.a, st.b)
    ensures forall k :: |old(st.b)| <= k < |st.b| ==> fresh(st.b[k]) && Mirrors(st.a[k], st.b[k], st.a, st.b)
    decreases g - NodeSet(st.a), 1
  {
    hide Graph;
    GraphNode(g, n);
    for j := 0 to |n.vals|
      invariant old(st.a) <= st.a && old(st.b) <= st.b && Paired(st.a, st.b, g)
      invariant MirrorsUpTo(n, c, j, st.a, st.b)
      invariant forall i :: |old(st.b)| <= i < |st.b| ==> fresh(st.b[i]) && Mirrors(st.a[i], st.b[i], st.a, st.b)
    {
      NodeSetGrows(old(st.a), st.a);
      label Before:
      var w := BaseClone(n.vals[j], true, st, g);
      MirrorsGrow(n, c, j, old@Before(st.a), old@Before(st.b), st.a, st.b);
      if n.kind.List? {
        c.vals := c.vals[j := w];
      } else {
        c.names, c.vals := c.names + [n.names[j]], c.vals + [w];
      }
    }
  }

  // ---------------------------------------------------------------- what a clone looks like from outside

  /** The value reached by taking the numbered members of arrays and records in `g`, one after the other. */
  ghost function Follow(v: Value, path: seq<nat>, g: set<Node>): Option<Value>
    reads g
  {
    if path == [] then Some(v) else Member(Follow(v, path[..|path| - 1], g), path[|path| - 1], g)
  }

  ghost function Member(u: Option<Value>, i: nat, g: set<Node>): Option<Value>
    reads g
  {
    if u.Some? && u.value.Ref? && u.value.node in g && Followed(u.value.node.kind) && i < |u.value.node.vals|
    then Some(u.value.node.vals[i])
    else None
  }

  /** By themselves the two look alike: the same scalar or uncloned object, or records or arrays with the same names. */
  ghost predicate Alike(v: Option<Value>, w: Option<Value>, g: set<Node>, h: set<Node>)
    reads g, h
  {
    if v.Some? && v.value.Ref? && Followed(v.value.node.kind) then
      && w.Some? && w.value.Ref? && v.value.node in g && w.value.node in h
      && var n, c := v.value.node, w.value.node; c.kind == n.kind && c.names == n.names && |c.vals| == |n.vals|
    else w == v
  }

  /** Every path from `v` has its counterpart from `w`; they end alike, and two of them meet in `g` exactly if they
      meet in `h`. */
  ghost predicate Isomorphic(v: Value, w: Value, g: set<Node>, h: set<Node>)
    reads g, h
  {
    && (forall p: seq<nat> :: Alike(Follow(v, p, g), Follow(w, p, h), g, h))
    && (forall p: seq<nat>, q: seq<nat> :: Follow(v, p, g) == Follow(v, q, g) <==> Follow(w, p, h) == Follow(w, q, h))
  }

  /** The stacks pair every node with a finished clone. */
  ghost predicate Finished(a: seq<Node>, b: seq<Node>, g: set<Node>)
    reads a, b
  {
    Paired(a, b, g) && forall k :: 0 <= k < |a| ==> Mirrors(a[k], b[k], a, b)
  }

  ghost predicate MatchesOpt(v: Option<Value>, w: Option<Value>, a: seq<Node>, b: seq<Node>)
    requires |a| == |b|
  {
    if v.None? then w.None? else w.Some? && Matches(v.value, w.value, a, b)
  }

  lemma {:induction false} MemberMatches(v: Option<Value>, w: Option<Value>, i: nat, a: seq<Node>, b: seq<Node>,
                                         g: set<Node>)
    requires Graph(g) && Finished(a, b, g) && MatchesOpt(v, w, a, b)
    ensures MatchesOpt(Member(v, i, g), Member(w, i, NodeSet(b)), a, b)
  {
    if v.Some? && v.value.Ref? && Followed(v.value.node.kind) {
      var k :| 0 <= k < |a| && a[k] == v.value.node && b[k] == w.value.node;
      assert Mirrors(a[k], b[k], a, b);
    }
  }

  lemma {:induction false} FollowMatches(v: Value, w: Value, path: seq<nat>, a: seq<Node>, b: seq<Node>, g: set<Node>)
    requires Graph(g) && Finished(a, b, g) && Matches(v, w, a, b)
    ensures MatchesOpt(Follow(v, path, g), Follow(w, path, NodeSet(b)), a, b)
    decreases |path|
  {
    if path != [] {
      FollowMatches(v, w, path[..|path| - 1], a, b, g);
      MemberMatches(Follow(v, path[..|path| - 1], g), Follow(w, path[..|path| - 1], NodeSet(b)), path[|path| - 1], a,
        b, g);
    }
  }

  lemma {:induction false} MatchesAlike(v: Option<Value>, w: Option<Value>, a: seq<Node>, b: seq<Node>, g: set<Node>)
    requires Finished(a, b, g) && MatchesOpt(v, w, a, b)
    ensures Alike(v, w, g, NodeSet(b))
  {
    if v.Some? && v.value.Ref? && Followed(v.value.node.kind) {
      var k :| 0 <= k < |a| && a[k] == v.value.node && b[k] == w.value.node;
      assert Mirrors(a[k], b[k], a, b);
    }
  }

  /** Matching is one to one. */
  lemma {:induction false} MatchesBothWays(v: Option<Value>, w: Option<Value>, v': Option<Value>, w': Option<Value>,
                                           a: seq<Node>, b: seq<Node>, g: set<Node>)
    requires Finished(a, b, g) && MatchesOpt(v, w, a, b) && MatchesOpt(v', w', a, b)
    requires (v.Some? ==> Within(v.value, g)) && (v'.Some? ==> Within(v'.value, g))
    ensures v == v' <==> w == w'
  {
  }

  lemma {:induction false} FollowWithin(v: Value, path: seq<nat>, g: set<Node>)
    requires Graph(g) && Within(v, g)
    ensures Follow(v, path, g).Some? ==> Within(Follow(v, path, g).value, g)
    decreases |path|
  {
    if path != [] {
      FollowWithin(v, path[..|path| - 1], g);
    }
  }

  /** Finished clones of everything that was traversed make up a graph of the same shape. */
  lemma {:induction false} CloneIsIsomorphic(v: Value, w: Value, a: seq<Node>, b: seq<Node>, g: set<Node>)
    requires Graph(g) && Within(v, g) && Finished(a, b, g) && Matches(v, w, a, b)
    ensures Isomorphic(v, w, g, NodeSet(b))
  {
    hide Finished, Follow, Alike, MatchesOpt, Matches, Graph;
    var h := NodeSet(b);
    forall p: seq<nat>
      ensures Alike(Follow(v, p, g), Follow(w, p, h), g, h)
    {
      FollowMatches(v, w, p, a, b, g);
      MatchesAlike(Follow(v, p, g), Follow(w, p, h), a, b, g);
    }
    forall p: seq<nat>, q: seq<nat>
      ensures Follow(v, p, g) == Follow(v, q, g) <==> Follow(w, p, h) == Follow(w, q, h)
    {
      FollowMatches(v, w, p, a, b, g);
      FollowMatches(v, w, q, a, b, g);
      FollowWithin(v, p, g);
      FollowWithin(v, q, g);
      MatchesBothWays(Follow(v, p, g), Follow(w, p, h), Follow(v, q, g), Follow(w, q, h), a, b, g);
    }
  }

  /** Clones all that can be reached from `value`, leaving it as it is; `h` holds the nodes that were made for it. */
  method CloneDeep(value: Value, ghost g: set<Node>) returns (result: Value, ghost h: set<Node>)
    requires Graph(g) && Within(value, g)
    ensures fresh(h)
    ensures (value.Ref? ==> Followed(value.node.kind)) ==> Isomorphic(value, result, g, h)
    ensures value.Ref? ==> result.Ref? && result.node.kind == CloneKind(value.node.kind) && fresh(result.node)
    ensures value.Ref? && value.node.kind.Other? ==> result.node.names == [] && result.node.vals == []
    ensures value.Ref? && value.node.kind.Function? ==>
      && result.node.names == value.node.names && |result.node.vals| == |value.node.vals|
      && forall i :: 0 <= i < |value.node.vals| ==> Isomorphic(value.node.vals[i], result.node.vals[i], g, h)
  {
    hide Graph, Isomorphic;
    var st := new Stacks();
    result := BaseClone(value, false, st, g);
    h := NodeSet(st.b);
    if !value.Ref? || Followed(value.node.kind) {
      CloneIsIsomorphic(value, result, st.a, st.b, g);
    } else if value.node.kind.Function? {
      ghost var k :| 0 <= k < |st.a| && st.a[k] == value.node && st.b[k] == result.node;
      GraphNode(g, value.node);
      forall i | 0 <= i < |value.node.vals|
        ensures Isomorphic(value.node.vals[i], result.node.vals[i], g, h)
      {
        CloneIsIsomorphic(value.node.vals[i], result.node.vals[i], st.a, st.b, g);
      }
    }
  }

  /** A shallow clone has the same members. */
  method CloneShallow(value: Value) returns (result: Value)
    ensures !value.Ref? ==> result == value
    ensures value.Ref? ==> result.Ref? && fresh(result.node) && result.node.kind == CloneKind(value.node.kind)
    ensures value.Ref? ==>
      if value.node.kind.Other? then result.node.names == [] && result.node.vals == []
      else result.node.names == value.node.names && result.node.vals == value.node.vals
  {
    if !value.Ref? {
      return value;
    }
    var c := new Node(CloneKind(value.node.kind), 0);
    if !value.node.kind.Other? {
      c.names, c.vals := value.node.names, value.node.vals;
    }
    return Ref(c);
  }
}
