/** Structural diff, patch and reverse of JSON values. */
module JsonDiff {
  import opened Wrappers
  import opened Splices
  import opened JsonPlan

  /** An array item that left its position: deleted for good, or moved to a position in the new array. */
  datatype Gone = Deletion(left: Json) | MoveTo(dest: nat)

  /** `ArrD` has an entry of `at` for every changed or added position of the new array, and one of `gone` for every
      position of the old array that was emptied. */
  datatype Delta =
    | Addition(value: Json)
    | Replacement(left: Json, value: Json)
    | Removal(left: Json)
    | ObjD(fields: map<Key, Delta>)
    | ArrD(at: map<nat, Delta>, gone: map<nat, Gone>)

  // ---------------------------------------------------------------- diff

  /** The entry for a key. One that only the right object has counts as present in the left one if it is inherited, and
      the code then compares nothing. */
  function FieldDelta(l: map<Key, Json>, r: map<Key, Json>, k: Key, both: Option<Delta>): Option<Delta>
    requires k in l || k in r
  {
    if k in l && k in r then both
    else if k in l then Some(Removal(l[k]))
    else if Inherited(k) then None
    else Some(Addition(r[k]))
  }

  /** The right index that a plan moves left item `x` to. */
  function Dest(p: Plan, x: nat, i: nat): (r: Option<nat>)
    requires i <= |p.src|
    ensures match r
      case Some(t) => i <= t < |p.src| && t in p.moved && p.src[t] == Some(x)
      case None => forall t :: i <= t < |p.src| && t in p.moved ==> p.src[t] != Some(x)
    decreases |p.src| - i
  {
    if i == |p.src| then None
    else if i in p.moved && p.src[i] == Some(x) then Some(i)
    else Dest(p, x, i + 1)
  }

  predicate StaysPut(p: Plan, x: nat) { exists i :: 0 <= i < |p.src| && i !in p.moved && p.src[i] == Some(x) }

  function GoneItems(o: seq<Json>, p: Plan): (r: map<nat, Gone>)
    ensures r.Keys == set x: nat {:trigger StaysPut(p, x)} | x < |o| && !StaysPut(p, x)
  {
    map x: nat {:trigger StaysPut(p, x)} | x < |o| && !StaysPut(p, x) ::
      match Dest(p, x, 0) case Some(t) => MoveTo(t) case None => Deletion(o[x])
  }

  /** Somewhere the left object has a key that the right one only inherits: the code then compares a value with a
      function, and throws. */
  predicate DiffThrows(l: Json, r: Json)
    decreases l
  {
    match (l, r)
    case (Obj(lf), Obj(rf)) =>
      || (exists k :: k in lf && k !in rf && Inherited(k))
      || (exists k :: k in lf && k in rf && DiffThrows(lf[k], rf[k]))
    case (Arr(o), Arr(f)) =>
      MakePlanValid(o, f);
      var p := MakePlan(o, f);
      exists i :: 0 <= i < |f| && p.src[i].Some? && DiffThrows(o[p.src[i].value], f[i])
    case _ => false
  }

  /** The delta between two values, if the code does not throw. */
  function Diff(l: Json, r: Json): Option<Delta>
    decreases l
  {
    if Identical(l, r) then None
    else match (l, r)
      case (Obj(lf), Obj(rf)) =>
        var ds := map k | k in lf.Keys + rf.Keys
          && FieldDelta(lf, rf, k, if k in lf && k in rf then Diff(lf[k], rf[k]) else None).Some?
                    :: FieldDelta(lf, rf, k, if k in lf && k in rf then Diff(lf[k], rf[k]) else None).value;
        if ds == map[] then None else Some(ObjD(ds))
      case (Arr(o), Arr(f)) =>
        MakePlanValid(o, f);
        var p := MakePlan(o, f);
        var at := map i: nat | i < |f|
          && ItemDelta(f, p, i, if p.src[i].Some? then Diff(o[p.src[i].value], f[i]) else None).Some?
                    :: ItemDelta(f, p, i, if p.src[i].Some? then Diff(o[p.src[i].value], f[i]) else None).value;
        if Whole(o, f) && at == map[] then None else Some(ArrD(at, GoneItems(o, p)))
      case _ => Some(Replacement(l, r))
  }

  function ItemDelta(f: seq<Json>, p: Plan, i: nat, nested: Option<Delta>): Option<Delta>
    requires i < |f| == |p.src|
  {
    if p.src[i].Some? then nested else Some(Addition(f[i]))
  }

  // ---------------------------------------------------------------- patch

  /** The items that the entries of `gone` below `n` move, by their new position. */
  function Moved(items: seq<Json>, gone: map<nat, Gone>, n: nat): map<nat, Json>
    requires n <= |items|
  {
    if n == 0 then map[]
    else if n - 1 in gone && gone[n - 1].MoveTo? then Moved(items, gone, n - 1)[gone[n - 1].dest := items[n - 1]]
    else Moved(items, gone, n - 1)
  }

  /** The values to insert, by their position in the new array. */
  function Inserts(items: seq<Json>, at: map<nat, Delta>, gone: map<nat, Gone>): map<nat, Json> {
    (map t | t in at && at[t].Addition? :: at[t].value) + Moved(items, gone, |items|)
  }

  /** The delta belongs to an array like `items`: its positions exist, and no two entries claim the same one. */
  predicate Fits(items: seq<Json>, at: map<nat, Delta>, gone: map<nat, Gone>) {
    && (forall x :: x in gone ==> x < |items|)
    && (forall x, y :: x in gone && y in gone && x != y && gone[x].MoveTo? && gone[y].MoveTo? ==>
      gone[x].dest != gone[y].dest)
    && (forall x :: x in gone && gone[x].MoveTo? ==> !(gone[x].dest in at && at[gone[x].dest].Addition?))
    && var ins := Inserts(items, at, gone);
       var h := |items| - |Ascending(gone.Keys, |items|)| + |ins|;
       && (forall t :: t in ins ==> t < h)
       && (forall t :: t in at ==> t < h)
  }

  lemma {:induction false} AscendingLength(s: set<nat>, n: nat)
    requires forall x :: x in s ==> x < n
    ensures |Ascending(s, n)| == |s|
  {
    if n > 0 {
      AscendingLength(s - {n - 1}, n - 1);
      AscendingSame(s, s - {n - 1}, n - 1);
    } else {
      assert s == {};
    }
  }

  lemma {:induction false} AscendingSame(s: set<nat>, s': set<nat>, n: nat)
    requires forall x :: x < n ==> (x in s <==> x in s')
    ensures Ascending(s, n) == Ascending(s', n)
  {
    if n > 0 {
      AscendingSame(s, s', n - 1);
    }
  }

  /** The array with the positions in `gone` spliced out, last one first. */
  function Emptied(items: seq<Json>, gone: map<nat, Gone>): (r: seq<Json>)
    ensures |r| == |items| - |Ascending(gone.Keys, |items|)|
  {
    AscendingFacts(gone.Keys, |items|);
    RemoveAll(items, Ascending(gone.Keys, |items|))
  }

  /** The array with the values of `ins` spliced in at their positions, first one first. */
  function Filled(base: seq<Json>, ins: map<nat, Json>): (r: seq<Json>)
    requires forall t :: t in ins ==> t < |base| + |ins|
    ensures |r| == |base| + |ins|
  {
    var h := |base| + |ins|;
    AscendingLength(ins.Keys, h);
    AscendingFacts(ins.Keys, h);
    InsertAll(base, ins, Ascending(ins.Keys, h))
  }

  /** The array after all removals and insertions, and before any nested change. */
  function Rearranged(items: seq<Json>, at: map<nat, Delta>, gone: map<nat, Gone>): (r: seq<Json>)
    requires Fits(items, at, gone)
    ensures forall t :: t in at ==> t < |r|
  {
    Filled(Emptied(items, gone), Inserts(items, at, gone))
  }

  predicate Unpatchable(fields: map<Key, Json>, ds: map<Key, Delta>) {
    || ds == map[] || "_t" in ds || "hasOwnProperty" in fields || "hasOwnProperty" in ds
    || exists k :: k in ds && ds[k].Removal? && k !in fields && Inherited(k)
  }

  /** The value that results from applying a delta; none if the code throws, or would leave a value that is not JSON.
      An object delta with an entry for the key `_t` is taken for an array delta, and then no filter handles it, nor one
      without entries. An object with a key `hasOwnProperty` of its own cannot be asked for its keys; no diff adds that
      key to an object. */
  function Patch(j: Json, d: Delta): Option<Json>
    decreases d
  {
    match d
    case Addition(_) => None
    case Removal(_) => None
    case Replacement(_, v) => Some(v)
    case ObjD(ds) =>
      if !j.Obj? || Unpatchable(j.fields, ds)
         || exists k :: k in ds && Nested(ds[k]) && (k !in j.fields || Patch(j.fields[k], ds[k]).None?)
      then None
      else
        Some(Obj(map k | k in j.fields.Keys + ds.Keys && !(k in ds && ds[k].Removal?) ::
          if k !in ds then j.fields[k]
          else if ds[k].Addition? || ds[k].Replacement? then ds[k].value
          else if Nested(ds[k]) then Patch(j.fields[k], ds[k]).value
          else j))
    case ArrD(at, gone) =>
      if !j.Arr? || !Fits(j.items, at, gone) then None
      else
        var arr := Rearranged(j.items, at, gone);
        if exists t :: t in at && !at[t].Addition? && Patch(arr[t], at[t]).None? then None
        else Some(Arr(seq(|arr|, i requires 0 <= i < |arr| =>
               if i in at && !at[i].Addition? then Patch(arr[i], at[i]).value else arr[i])))
  }

  predicate Nested(d: Delta) { d.ObjD? || d.ArrD? }

  // ---------------------------------------------------------------- arrays: undoing the plan

  /** The new array as the plan makes it from the old items, before nested changes. */
  function Planned(o: seq<Json>, f: seq<Json>, p: Plan): (r: seq<Json>)
    requires ValidPlan(p, |o|, |f|)
    ensures |r| == |f|
  {
    seq(|f|, i requires 0 <= i < |f| => if p.src[i].Some? then o[p.src[i].value] else f[i])
  }

  function FreshSet(p: Plan): set<nat> { set i: nat | i < |p.src| && p.Fresh(i) }

  function GoneSet(p: Plan, c: nat): set<nat> { set x: nat {:trigger StaysPut(p, x)} | x < c && !StaysPut(p, x) }

  lemma {:induction false} KeepSnoc<T>(a: seq<T>, gone: set<nat>, i: nat)
    requires 0 < i <= |a|
    ensures Keep(a[..i], gone) == Keep(a[..i - 1], gone) + if i - 1 in gone then [] else [a[i - 1]]
  {
    assert a[..i][..i - 1] == a[..i - 1];
  }

  lemma {:induction false} KeepNothing<T>(a: seq<T>, gone: set<nat>)
    ensures Keep(a[..0], gone) == []
  {
  }

  /** What stays in the old array is what is kept in the new one, in the same order. */
  lemma {:induction false} KeptAgree(o: seq<Json>, f: seq<Json>, p: Plan, i: nat, b: nat)
    requires ValidPlan(p, |o|, |f|) && i <= |f| && b <= |o|
    requires forall j :: 0 <= j < i && p.Kept(j) ==> p.src[j].value < b
    requires forall j :: i <= j < |f| && p.Kept(j) ==> p.src[j].value >= b
    ensures Keep(Planned(o, f, p)[..i], FreshSet(p)) == Keep(o[..b], GoneSet(p, |o|))
    decreases i + b
  {
    hide Keep;
    var r := Planned(o, f, p);
    KeepNothing(r, FreshSet(p));
    KeepNothing(o, GoneSet(p, |o|));
    if i > 0 && !p.Kept(i - 1) {
      KeptAgree(o, f, p, i - 1, b);
      KeepSnoc(r, FreshSet(p), i);
    } else if b > 0 && (i == 0 || !StaysPut(p, b - 1)) {
      forall j | 0 <= j < |f|
        ensures !(j !in p.moved && p.src[j] == Some(b - 1))
      {
        assert p.Kept(j) || p.Fresh(j);
      }
      KeptAgree(o, f, p, i, b - 1);
      KeepSnoc(o, GoneSet(p, |o|), b);
    } else if i > 0 {
      var x := p.src[i - 1].value;
      assert StaysPut(p, x);
      LastKept(o, f, p, i, b);
      KeptAgree(o, f, p, i - 1, b - 1);
      KeepSnoc(r, FreshSet(p), i);
      KeepSnoc(o, GoneSet(p, |o|), b);
    }
  }

  /** If the last old item in view stays, it is the source of the last new one. */
  lemma {:induction false} LastKept(o: seq<Json>, f: seq<Json>, p: Plan, i: nat, b: nat)
    requires ValidPlan(p, |o|, |f|) && 0 < i <= |f| && p.Kept(i - 1)
    requires forall j :: 0 <= j < i && p.Kept(j) ==> p.src[j].value < b
    requires forall j :: i <= j < |f| && p.Kept(j) ==> p.src[j].value >= b
    requires b > 0 ==> StaysPut(p, b - 1)
    ensures b > 0 && p.src[i - 1] == Some(b - 1)
  {
    assert p.src[i - 1].value < b;
    var j :| 0 <= j < |f| && j !in p.moved && p.src[j] == Some(b - 1);
    assert p.Kept(j);
  }

  lemma {:induction false} MovedFacts(items: seq<Json>, gone: map<nat, Gone>, n: nat)
    requires n <= |items|
    requires forall x, y :: x in gone && y in gone && x != y && gone[x].MoveTo? && gone[y].MoveTo? ==>
      gone[x].dest != gone[y].dest
    ensures forall x :: x in gone && x < n && gone[x].MoveTo? ==>
      gone[x].dest in Moved(items, gone, n) && Moved(items, gone, n)[gone[x].dest] == items[x]
    ensures forall t :: t in Moved(items, gone, n) ==> exists x :: x in gone && x < n && gone[x] == MoveTo(t)
  {
    if n > 0 {
      MovedFacts(items, gone, n - 1);
    }
  }

  /** Entries of an array delta that a plan gives rise to, whatever the nested deltas are. */
  ghost predicate Records(o: seq<Json>, f: seq<Json>, p: Plan, at: map<nat, Delta>) {
    && ValidPlan(p, |o|, |f|)
    && (forall i :: i in at ==> i < |f|)
    && (forall i :: 0 <= i < |f| && p.src[i].None? ==> i in at && at[i] == Addition(f[i]))
    && (forall i :: i in at && p.src[i].Some? ==> !at[i].Addition?)
  }

  /** The old position of a moved item is among the emptied ones, and says where the item went. */
  lemma {:induction false} GoneMoves(o: seq<Json>, f: seq<Json>, p: Plan)
    requires ValidPlan(p, |o|, |f|)
    ensures var gone := GoneItems(o, p);
      && (forall x :: x in gone && gone[x].MoveTo? ==>
            var t := gone[x].dest; t < |f| && t in p.moved && p.src[t] == Some(x))
      && (forall t :: t in p.moved ==>
            t < |f| && p.src[t].Some? && p.src[t].value in gone && gone[p.src[t].value] == MoveTo(t))
  {
    var gone := GoneItems(o, p);
    forall t | t in p.moved
      ensures t < |f| && p.src[t].Some? && p.src[t].value in gone && gone[p.src[t].value] == MoveTo(t)
    {
      var x := p.src[t].value;
      assert !StaysPut(p, x);
      assert Dest(p, x, 0).Some?;
    }
  }

  lemma {:induction false} InsertsFacts(o: seq<Json>, f: seq<Json>, p: Plan, at: map<nat, Delta>)
    requires Records(o, f, p, at)
    ensures var gone := GoneItems(o, p);
      var ins := Inserts(o, at, gone);
      && ins.Keys == FreshSet(p)
      && forall t :: t in ins ==> t < |f| && ins[t] == Planned(o, f, p)[t]
  {
    hide GoneItems;
    var gone := GoneItems(o, p);
    GoneMoves(o, f, p);
    MovedFacts(o, gone, |o|);
    var ins := Inserts(o, at, gone);
    forall t | t in ins
      ensures t in FreshSet(p) && t < |f| && ins[t] == Planned(o, f, p)[t]
    {
      if t in Moved(o, gone, |o|) {
        var x :| x in gone && x < |o| && gone[x] == MoveTo(t);
      }
    }
    forall t | t in FreshSet(p)
      ensures t in ins
    {
      if t in p.moved {
        assert gone[p.src[t].value] == MoveTo(t);
      }
    }
  }

  lemma {:induction false} GoneKeys(o: seq<Json>, p: Plan)
    ensures GoneItems(o, p).Keys == GoneSet(p, |o|)
  {
  }

  lemma {:induction false} RemovedIsKept(o: seq<Json>, f: seq<Json>, p: Plan)
    requires ValidPlan(p, |o|, |f|)
    ensures var out := Ascending(GoneSet(p, |o|), |o|);
      Increasing(out, |o|)
      && RemoveAll(o, out) == Keep(Planned(o, f, p), SetOf(Ascending(FreshSet(p), |f|)))
  {
    hide Planned, Keep, Ascending, RemoveAll, ValidPlan;
    var r, gone := Planned(o, f, p), GoneSet(p, |o|);
    AscendingFacts(gone, |o|);
    RemoveAllKeeps(o, Ascending(gone, |o|));
    KeepAscending(o, gone, |o|);
    KeepAscending(r, FreshSet(p), |f|);
    WholeKept(o, f, p);
  }

  lemma {:induction false} WholeKept(o: seq<Json>, f: seq<Json>, p: Plan)
    requires ValidPlan(p, |o|, |f|)
    ensures Keep(Planned(o, f, p), FreshSet(p)) == Keep(o, GoneSet(p, |o|))
  {
    var r := Planned(o, f, p);
    KeptAgree(o, f, p, |f|, |o|);
    assert r[..|f|] == r && o[..|o|] == o;
  }

  lemma {:induction false} InsertedIsPlanned(o: seq<Json>, f: seq<Json>, p: Plan, at: map<nat, Delta>, base: seq<Json>)
    requires Records(o, f, p, at) && base == Keep(Planned(o, f, p), SetOf(Ascending(FreshSet(p), |f|)))
    ensures var ins := Inserts(o, at, GoneItems(o, p));
      var idx := Ascending(FreshSet(p), |f|);
      && |f| == |base| + |idx| && |idx| == |ins| && Increasing(idx, |f|)
      && (forall x :: x in idx ==> x in ins)
      && InsertAll(base, ins, idx) == Planned(o, f, p)
  {
    hide GoneItems, Inserts, Planned, Keep, Ascending, InsertAll;
    var r, idx := Planned(o, f, p), Ascending(FreshSet(p), |f|);
    InsertsFacts(o, f, p, at);
    var ins := Inserts(o, at, GoneItems(o, p));
    AscendingFacts(FreshSet(p), |f|);
    AscendingLength(FreshSet(p), |f|);
    forall x | x in idx
      ensures x < |r| && x in ins && ins[x] == r[x]
    {
      assert x in SetOf(idx);
    }
    InsertUndoesKeep(r, idx, base, ins);
    assert |ins| == |ins.Keys|;
  }

  lemma {:induction false} PlanFits(o: seq<Json>, f: seq<Json>, p: Plan, at: map<nat, Delta>)
    requires Records(o, f, p, at)
    ensures Fits(o, at, GoneItems(o, p))
    ensures var ins := Inserts(o, at, GoneItems(o, p));
      |o| - |Ascending(GoneSet(p, |o|), |o|)| + |ins| == |f| && ins.Keys == FreshSet(p)
  {
    hide GoneItems, Inserts, Planned, Keep, Ascending, RemoveAll, InsertAll, ValidPlan;
    GoneKeys(o, p);
    GoneMoves(o, f, p);
    RemovedIsKept(o, f, p);
    InsertsFacts(o, f, p, at);
    InsertedIsPlanned(o, f, p, at, RemoveAll(o, Ascending(GoneSet(p, |o|), |o|)));
  }

  /** Carrying out a plan's removals and insertions gives the array that the plan describes. */
  lemma {:induction false} RearrangedIsPlanned(o: seq<Json>, f: seq<Json>, p: Plan, at: map<nat, Delta>)
    requires Records(o, f, p, at)
    ensures Fits(o, at, GoneItems(o, p))
    ensures Rearranged(o, at, GoneItems(o, p)) == Planned(o, f, p)
  {
    hide GoneItems, Inserts, Planned, Keep, Ascending, RemoveAll, InsertAll, ValidPlan, Fits, Records;
    GoneKeys(o, p);
    PlanFits(o, f, p, at);
    RecordsPlan(o, f, p, at);
    RemovedIsKept(o, f, p);
    InsertedIsPlanned(o, f, p, at, RemoveAll(o, Ascending(GoneSet(p, |o|), |o|)));
  }

  lemma {:induction false} RecordsPlan(o: seq<Json>, f: seq<Json>, p: Plan, at: map<nat, Delta>)
    requires Records(o, f, p, at)
    ensures ValidPlan(p, |o|, |f|)
  {
  }

  lemma {:induction false} KeepAscending<T>(a: seq<T>, s: set<nat>, n: nat)
    requires n == |a|
    ensures Keep(a, SetOf(Ascending(s, n))) == Keep(a, s)
  {
    AscendingFacts(s, n);
    KeepSame(a, SetOf(Ascending(s, n)), s);
  }

  // ---------------------------------------------------------------- the round trip

  /** The nested deltas of an array diff, as `Diff` collects them. */
  ghost predicate NestedDeltas(o: seq<Json>, f: seq<Json>, p: Plan, at: map<nat, Delta>) {
    && ValidPlan(p, |o|, |f|)
    && (forall i :: i in at ==> i < |f|)
    && (forall i :: 0 <= i < |f| ==>
          var d := if p.src[i].Some? then Diff(o[p.src[i].value], f[i]) else Some(Addition(f[i]));
          if d.Some? then i in at && at[i] == d.value else i !in at)
  }

  ghost predicate NestedFields(lf: map<Key, Json>, rf: map<Key, Json>, ds: map<Key, Delta>) {
    && ds.Keys <= lf.Keys + rf.Keys
    && (forall k :: k in lf.Keys + rf.Keys ==>
          var d := FieldDelta(lf, rf, k, if k in lf && k in rf then Diff(lf[k], rf[k]) else None);
          if d.Some? then k in ds && ds[k] == d.value else k !in ds)
  }

  /** How the three cases of `Diff` look from outside. */
  lemma {:induction false} DiffCases(l: Json, r: Json) returns (ds: map<Key, Delta>, at: map<nat, Delta>)
    ensures match (l, r)
      case (Obj(lf), Obj(rf)) =>
        NestedFields(lf, rf, ds) && Diff(l, r) == if ds == map[] then None else Some(ObjD(ds))
      case (Arr(o), Arr(f)) =>
        NestedDeltas(o, f, MakePlan(o, f), at)
        && Diff(l, r) == if Whole(o, f) && at == map[] then None else Some(ArrD(at, GoneItems(o, MakePlan(o, f))))
      case _ => Diff(l, r) == if l == r then None else Some(Replacement(l, r))
  {
    ds, at := map[], map[];
    match (l, r)
    case (Obj(lf), Obj(rf)) => ds := ObjectDiff(lf, rf);
    case (Arr(o), Arr(f)) => at := ArrayDiff(o, f);
    case _ =>
  }

  lemma {:induction false} ObjectDiff(lf: map<Key, Json>, rf: map<Key, Json>) returns (ds: map<Key, Delta>)
    ensures NestedFields(lf, rf, ds) && Diff(Obj(lf), Obj(rf)) == if ds == map[] then None else Some(ObjD(ds))
  {
    ds := map k | k in lf.Keys + rf.Keys
      && FieldDelta(lf, rf, k, if k in lf && k in rf then Diff(lf[k], rf[k]) else None).Some?
            :: FieldDelta(lf, rf, k, if k in lf && k in rf then Diff(lf[k], rf[k]) else None).value;
  }

  lemma {:induction false} ArrayDiff(o: seq<Json>, f: seq<Json>) returns (at: map<nat, Delta>)
    ensures NestedDeltas(o, f, MakePlan(o, f), at)
    ensures Diff(Arr(o), Arr(f)) ==
      if Whole(o, f) && at == map[] then None else Some(ArrD(at, GoneItems(o, MakePlan(o, f))))
  {
    hide MakePlan, Whole, GoneItems;
    MakePlanValid(o, f);
    var p := MakePlan(o, f);
    at := map i: nat | i < |f|
      && ItemDelta(f, p, i, if p.src[i].Some? then Diff(o[p.src[i].value], f[i]) else None).Some?
            :: ItemDelta(f, p, i, if p.src[i].Some? then Diff(o[p.src[i].value], f[i]) else None).value;
  }

  lemma {:induction false} DiffKinds(l: Json, r: Json)
    ensures Diff(l, r).Some? ==> !Diff(l, r).value.Addition? && !Diff(l, r).value.Removal?
  {
    var ds, at := DiffCases(l, r);
  }

  /** Where two objects are compared, they have the same inherited names as keys of their own. */
  predicate SameNames(lf: map<Key, Json>, rf: map<Key, Json>) {
    forall k :: k in lf.Keys + rf.Keys && Inherited(k) ==> k in lf && k in rf
  }

  /** The delta can be computed and applied: wherever the diff compares two objects, they have the same inherited names,
      and if there is a delta, it is not under the key `_t`, nor do they have the key `hasOwnProperty`. */
  ghost predicate Applicable(l: Json, r: Json)
    decreases l
  {
    match (l, r)
    case (Obj(lf), Obj(rf)) =>
      && SameNames(lf, rf)
      && (Diff(l, r).Some? ==> "hasOwnProperty" !in lf && (Diff(l, r).value.ObjD? ==> "_t" !in Diff(l, r).value.fields))
      && (forall k :: k in lf && k in rf ==> Applicable(lf[k], rf[k]))
    case (Arr(o), Arr(f)) =>
      MakePlanValid(o, f);
      var p := MakePlan(o, f);
      forall i :: 0 <= i < |f| && p.src[i].Some? ==> Applicable(o[p.src[i].value], f[i])
    case _ => true
  }

  lemma {:induction false} ApplicableDiffs(l: Json, r: Json)
    requires Applicable(l, r)
    ensures !DiffThrows(l, r)
    decreases l
  {
    match (l, r)
    case (Obj(lf), Obj(rf)) =>
      forall k | k in lf && k in rf
        ensures !DiffThrows(lf[k], rf[k])
      {
        ApplicableDiffs(lf[k], rf[k]);
      }
    case (Arr(o), Arr(f)) =>
      MakePlanValid(o, f);
      var p := MakePlan(o, f);
      forall i | 0 <= i < |f| && p.src[i].Some?
        ensures !DiffThrows(o[p.src[i].value], f[i])
      {
        ApplicableDiffs(o[p.src[i].value], f[i]);
      }
    case _ =>
  }

  /** What a round trip that gets as far as patching promises. */
  ghost predicate Restores(l: Json, r: Json) {
    !DiffThrows(l, r) ==>
      match Diff(l, r)
      case None => l == r <==> Applicable(l, r)
      case Some(d) => Patch(l, d) == Some(r) <==> Applicable(l, r)
  }

  /** The entry for `k`, or its absence, turns the old field into the new one. */
  ghost predicate FieldOk(lf: map<Key, Json>, ds: map<Key, Delta>, rf: map<Key, Json>, k: Key) {
    if k !in ds then (k in lf <==> k in rf) && (k in lf ==> lf[k] == rf[k])
    else match ds[k]
      case Addition(v) => k in rf && rf[k] == v
      case Removal(_) => k !in rf
      case Replacement(_, v) => k in rf && rf[k] == v
      case _ => k in lf && k in rf && Patch(lf[k], ds[k]) == Some(rf[k])
  }

  /** A patch turns one object into the other exactly if every entry does. */
  lemma {:induction false} PatchFields(lf: map<Key, Json>, ds: map<Key, Delta>, rf: map<Key, Json>)
    requires !Unpatchable(lf, ds)
    ensures Patch(Obj(lf), ObjD(ds)) == Some(Obj(rf)) <==> forall k :: FieldOk(lf, ds, rf, k)
  {
    hide Unpatchable, Inherited;
    if forall k :: FieldOk(lf, ds, rf, k) {
      forall k | k in ds && Nested(ds[k])
        ensures k in lf && Patch(lf[k], ds[k]).Some?
      {
        assert FieldOk(lf, ds, rf, k);
      }
      var res := Patch(Obj(lf), ObjD(ds)).value.fields;
      forall k
        ensures k in res <==> k in rf
        ensures k in rf ==> k in res && res[k] == rf[k]
      {
        assert FieldOk(lf, ds, rf, k);
      }
      assert res == rf;
    }
  }

  /** The entries that a diff of two objects gives rise to, where it does not throw. */
  lemma {:induction false} FieldsOk(lf: map<Key, Json>, rf: map<Key, Json>, ds: map<Key, Delta>)
    requires NestedFields(lf, rf, ds) && forall k :: k in lf && k !in rf ==> !Inherited(k)
    requires forall k :: k in lf && k in rf ==> Restores(lf[k], rf[k]) && !DiffThrows(lf[k], rf[k])
    ensures (forall k :: FieldOk(lf, ds, rf, k)) <==>
      SameNames(lf, rf) && forall k :: k in lf && k in rf ==> Applicable(lf[k], rf[k])
  {
    hide Diff, Applicable, Inherited, Patch;
    forall k | k in lf && k in rf
      ensures FieldOk(lf, ds, rf, k) <==> Applicable(lf[k], rf[k])
    {
      DiffKinds(lf[k], rf[k]);
      ReplacementIs(lf[k], rf[k]);
    }
    forall k: Key | !(k in lf && k in rf)
      ensures FieldOk(lf, ds, rf, k) <==> !(k in rf && Inherited(k))
    {
    }
  }

  lemma {:induction false} ReplacementIs(l: Json, r: Json)
    ensures Diff(l, r).Some? && Diff(l, r).value.Replacement? ==>
      Diff(l, r).value.value == r && Patch(l, Diff(l, r).value) == Some(r)
  {
    var ds, at := DiffCases(l, r);
  }

  lemma {:induction false} DiffUnpatchable(lf: map<Key, Json>, rf: map<Key, Json>, ds: map<Key, Delta>)
    requires NestedFields(lf, rf, ds) && forall k :: k in lf && k !in rf ==> !Inherited(k)
    requires ds != map[] && forall k :: k in lf && k in rf && k in ds ==> !ds[k].Removal?
    ensures Unpatchable(lf, ds) <==> "_t" in ds || "hasOwnProperty" in lf
  {
    hide Inherited, Diff;
    OwnIsInherited();
  }

  lemma {:induction false} OwnIsInherited()
    ensures Inherited("hasOwnProperty")
  {
  }

  lemma {:induction false} ObjectRoundTrip(lf: map<Key, Json>, rf: map<Key, Json>, ds: map<Key, Delta>)
    requires NestedFields(lf, rf, ds) && !DiffThrows(Obj(lf), Obj(rf))
    requires Diff(Obj(lf), Obj(rf)) == if ds == map[] then None else Some(ObjD(ds))
    requires forall k :: k in lf && k in rf ==> Restores(lf[k], rf[k])
    ensures Restores(Obj(lf), Obj(rf))
  {
    hide Diff, Inherited, Unpatchable, Patch;
    forall k | k in lf && k in rf
      ensures !DiffThrows(lf[k], rf[k]) && (k in ds ==> !ds[k].Removal?)
    {
      DiffKinds(lf[k], rf[k]);
    }
    FieldsOk(lf, rf, ds);
    if ds == map[] {
      NoEntries(lf, rf, ds);
    } else {
      DiffUnpatchable(lf, rf, ds);
      if Unpatchable(lf, ds) {
        PatchNone(lf, ds);
      } else {
        PatchFields(lf, ds, rf);
      }
    }
  }

  lemma {:induction false} NoEntries(lf: map<Key, Json>, rf: map<Key, Json>, ds: map<Key, Delta>)
    requires ds == map[]
    ensures (forall k :: FieldOk(lf, ds, rf, k)) <==> lf == rf
  {
    if forall k :: FieldOk(lf, ds, rf, k) {
      forall k
        ensures k in lf <==> k in rf
      {
        assert FieldOk(lf, ds, rf, k);
      }
      forall k | k in lf
        ensures lf[k] == rf[k]
      {
        assert FieldOk(lf, ds, rf, k);
      }
      assert lf == rf;
    }
  }

  lemma {:induction false} PatchNone(lf: map<Key, Json>, ds: map<Key, Delta>)
    requires Unpatchable(lf, ds)
    ensures Patch(Obj(lf), ObjD(ds)) == None
  {
  }

  /** The nested changes at the positions of the new array. */
  function Changed(r: seq<Json>, at: map<nat, Delta>): Option<seq<Json>>
    requires forall t :: t in at ==> t < |r|
  {
    if exists t :: t in at && !at[t].Addition? && Patch(r[t], at[t]).None? then None
    else Some(seq(|r|, i requires 0 <= i < |r| =>
           if i in at && !at[i].Addition? then Patch(r[i], at[i]).value else r[i]))
  }

  lemma {:induction false} PatchArray(o: seq<Json>, at: map<nat, Delta>, gone: map<nat, Gone>)
    requires Fits(o, at, gone)
    ensures Patch(Arr(o), ArrD(at, gone))
         == match Changed(Rearranged(o, at, gone), at) case None => None case Some(items) => Some(Arr(items))
  {
    hide Fits, Rearranged;
  }

  /** The item at `t` of the rearranged array `r` ends up as that of `f`. */
  ghost predicate ItemOk(r: seq<Json>, at: map<nat, Delta>, f: seq<Json>, t: nat)
    requires |r| == |f| && t < |f|
  {
    if t in at && !at[t].Addition? then Patch(r[t], at[t]) == Some(f[t]) else r[t] == f[t]
  }

  lemma {:induction false} ChangedItems(r: seq<Json>, at: map<nat, Delta>, f: seq<Json>)
    requires |r| == |f| && forall t :: t in at ==> t < |r|
    ensures Changed(r, at) == Some(f) <==> forall t :: 0 <= t < |f| ==> ItemOk(r, at, f, t)
  {
    hide Patch;
    if forall t :: 0 <= t < |f| ==> ItemOk(r, at, f, t) {
      forall t | t in at && !at[t].Addition?
        ensures Patch(r[t], at[t]).Some?
      {
        assert ItemOk(r, at, f, t);
      }
      var c := Changed(r, at).value;
      forall t | 0 <= t < |f|
        ensures c[t] == f[t]
      {
        assert ItemOk(r, at, f, t);
      }
      assert c == f;
    } else {
      var t :| 0 <= t < |f| && !ItemOk(r, at, f, t);
      if Changed(r, at).Some? {
        assert Changed(r, at).value[t] != f[t];
      }
    }
  }

  lemma {:induction false} ChangedIsNew(o: seq<Json>, f: seq<Json>, p: Plan, at: map<nat, Delta>)
    requires NestedDeltas(o, f, p, at)
    requires forall i :: 0 <= i < |f| && p.src[i].Some? ==>
      Restores(o[p.src[i].value], f[i]) && !DiffThrows(o[p.src[i].value], f[i])
    requires forall i :: i in at && p.src[i].Some? ==> !at[i].Addition?
    ensures Changed(Planned(o, f, p), at) == Some(f) <==>
      forall i :: 0 <= i < |f| && p.src[i].Some? ==> Applicable(o[p.src[i].value], f[i])
  {
    hide Diff, Patch, Applicable, Changed;
    var r := Planned(o, f, p);
    ChangedItems(r, at, f);
    forall t | 0 <= t < |f|
      ensures ItemOk(r, at, f, t) <==> (p.src[t].Some? ==> Applicable(o[p.src[t].value], f[t]))
    {
      if p.src[t].Some? {
        assert Restores(o[p.src[t].value], f[t]);
      }
    }
  }

  lemma {:induction false} ArrayRoundTrip(o: seq<Json>, f: seq<Json>, p: Plan, at: map<nat, Delta>)
    requires NestedDeltas(o, f, p, at)
    requires forall i :: 0 <= i < |f| && p.src[i].Some? ==>
      Restores(o[p.src[i].value], f[i]) && !DiffThrows(o[p.src[i].value], f[i])
    ensures Patch(Arr(o), ArrD(at, GoneItems(o, p))) == Some(Arr(f)) <==>
      forall i :: 0 <= i < |f| && p.src[i].Some? ==> Applicable(o[p.src[i].value], f[i])
  {
    hide GoneItems, Fits, Rearranged, Planned, Patch, Changed, Restores, Applicable, DiffThrows;
    forall i | 0 <= i < |f| && p.src[i].Some?
      ensures i in at ==> !at[i].Addition?
    {
      DiffKinds(o[p.src[i].value], f[i]);
    }
    RearrangedIsPlanned(o, f, p, at);
    PatchArray(o, at, GoneItems(o, p));
    ChangedIsNew(o, f, p, at);
  }

  lemma {:induction false} ArrayRestores(o: seq<Json>, f: seq<Json>, at: map<nat, Delta>)
    requires NestedDeltas(o, f, MakePlan(o, f), at) && !DiffThrows(Arr(o), Arr(f))
    requires Diff(Arr(o), Arr(f)) ==
      if Whole(o, f) && at == map[] then None else Some(ArrD(at, GoneItems(o, MakePlan(o, f))))
    requires forall i :: 0 <= i < |f| && MakePlan(o, f).src[i].Some? ==> Restores(o[MakePlan(o, f).src[i].value], f[i])
    ensures Restores(Arr(o), Arr(f))
  {
    hide MakePlan, Whole, GoneItems, Diff, Patch;
    MakePlanValid(o, f);
    var p := MakePlan(o, f);
    ArrayRoundTrip(o, f, p, at);
    if Whole(o, f) && at == map[] {
      WholeIsIdentity(o, f);
      SameItems(o, f, p, at);
    }
  }

  lemma {:induction false} SameItems(o: seq<Json>, f: seq<Json>, p: Plan, at: map<nat, Delta>)
    requires NestedDeltas(o, f, p, at) && at == map[] && |o| == |f| && forall i :: 0 <= i < |f| ==> p.src[i] == Some(i)
    requires forall i :: 0 <= i < |f| ==> Restores(o[i], f[i]) && !DiffThrows(o[i], f[i])
    ensures o == f <==> forall i :: 0 <= i < |f| ==> Applicable(o[i], f[i])
  {
    hide Diff, Applicable, DiffThrows;
    forall i | 0 <= i < |f|
      ensures o[i] == f[i] <==> Applicable(o[i], f[i])
    {
      assert p.src[i].value == i;
    }
  }

  lemma {:induction false} RestoresAll(l: Json, r: Json)
    ensures Restores(l, r)
    decreases l
  {
    hide MakePlan, Whole, GoneItems, Patch;
    var ds, at := DiffCases(l, r);
    match (l, r)
    case (Obj(lf), Obj(rf)) =>
      forall k | k in lf && k in rf
        ensures Restores(lf[k], rf[k])
      {
        RestoresAll(lf[k], rf[k]);
      }
      if !DiffThrows(l, r) {
        ObjectRoundTrip(lf, rf, ds);
      }
    case (Arr(o), Arr(f)) =>
      MakePlanValid(o, f);
      var p := MakePlan(o, f);
      forall i | 0 <= i < |f| && p.src[i].Some?
        ensures Restores(o[p.src[i].value], f[i])
      {
        RestoresAll(o[p.src[i].value], f[i]);
      }
      if !DiffThrows(l, r) {
        ArrayRestores(o, f, at);
      }
    case _ => ScalarsRestore(l, r);
  }

  lemma {:induction false} ScalarsRestore(l: Json, r: Json)
    requires !(l.Obj? && r.Obj?) && !(l.Arr? && r.Arr?)
    ensures Restores(l, r)
  {
  }

  /** What patching a value with its diff to another one gives; none if something throws on the way. */
  function DiffPatch(l: Json, r: Json): Option<Json> {
    if DiffThrows(l, r) then None
    else match Diff(l, r) case None => Some(l) case Some(d) => Patch(l, d)
  }

  // ---------------------------------------------------------------- when there is no delta

  /** No array, at any depth, mixes scalars with arrays or objects. */
  ghost predicate Uniform(j: Json) {
    match j
    case Arr(items) => Unmixed(items) && forall i :: 0 <= i < |items| ==> Uniform(items[i])
    case Obj(fields) => forall k :: k in fields ==> Uniform(fields[k])
    case _ => true
  }

  lemma {:induction false} SelfDiff(v: Json)
    ensures !DiffThrows(v, v) && (Diff(v, v) == None <==> Uniform(v))
  {
    var ds, at := DiffCases(v, v);
    match v
    case Obj(fields) =>
      forall k | k in fields
        ensures !DiffThrows(fields[k], fields[k]) && (k in ds <==> !Uniform(fields[k]))
      {
        SelfDiff(fields[k]);
      }
      assert ds == map[] <==> forall k :: k in fields ==> k !in ds;
    case Arr(a) =>
      forall i | 0 <= i < |a|
        ensures !DiffThrows(a[i], a[i]) && (Diff(a[i], a[i]) == None <==> Uniform(a[i]))
      {
        SelfDiff(a[i]);
      }
      SelfDiffArray(a, at);
    case _ =>
  }

  lemma {:induction false} SelfDiffArray(a: seq<Json>, at: map<nat, Delta>)
    requires NestedDeltas(a, a, MakePlan(a, a), at)
    requires forall i :: 0 <= i < |a| ==> !DiffThrows(a[i], a[i]) && (Diff(a[i], a[i]) == None <==> Uniform(a[i]))
    ensures !DiffThrows(Arr(a), Arr(a))
    ensures Whole(a, a) && at == map[] <==> Uniform(Arr(a))
  {
    hide MakePlan, Diff, Whole, ByPosition;
    MakePlanValid(a, a);
    var p := MakePlan(a, a);
    forall i | 0 <= i < |a| && p.src[i].Some?
      ensures !DiffThrows(a[p.src[i].value], a[i])
    {
      assert MatchItems(a, a, ByPosition(a, a), p.src[i].value, i);
    }
    WholeIffUnmixed(a);
    if Whole(a, a) {
      WholeIsIdentity(a, a);
      assert at == map[] <==> forall i :: 0 <= i < |a| ==> i !in at;
    }
  }

  lemma {:induction false} NoDelta(l: Json, r: Json)
    ensures !DiffThrows(l, r) && Diff(l, r) == None && Applicable(l, r) <==> Unchanged(l, r)
  {
    RestoresAll(l, r);
    if l == r {
      SelfDiff(l);
    }
  }

  // ---------------------------------------------------------------- when the round trip succeeds

  /** The code finds no difference: the values are equal, and no array in them mixes scalars with arrays or objects. */
  ghost predicate Unchanged(l: Json, r: Json) { l == r && Uniform(l) }

  /** The key `_t` is in neither object, or it is in both, and unchanged. */
  ghost predicate TagKept(lf: map<Key, Json>, rf: map<Key, Json>) {
    "_t" in lf.Keys + rf.Keys ==> "_t" in lf && "_t" in rf && Unchanged(lf["_t"], rf["_t"])
  }

  /** Wherever the diff compares two objects, they have the same inherited names, and unless they are unchanged, the
      left one has no key `hasOwnProperty`, and the key `_t` is kept. */
  ghost predicate Faithful(l: Json, r: Json)
    decreases l
  {
    match (l, r)
    case (Obj(lf), Obj(rf)) =>
      && SameNames(lf, rf)
      && (!Unchanged(l, r) ==> "hasOwnProperty" !in lf && TagKept(lf, rf))
      && (forall k :: k in lf && k in rf ==> Faithful(lf[k], rf[k]))
    case (Arr(o), Arr(f)) =>
      MakePlanValid(o, f);
      var p := MakePlan(o, f);
      forall i :: 0 <= i < |f| && p.src[i].Some? ==> Faithful(o[p.src[i].value], f[i])
    case _ => true
  }

  /** For objects with the same inherited names and applicable fields, the entries are those of the fields that are in
      one object only, or changed. */
  lemma {:induction false} ChangedFields(lf: map<Key, Json>, rf: map<Key, Json>, ds: map<Key, Delta>, k: Key)
    requires NestedFields(lf, rf, ds) && SameNames(lf, rf)
    requires k in lf && k in rf ==> Applicable(lf[k], rf[k])
    ensures k in ds <==> k in lf.Keys + rf.Keys && !(k in lf && k in rf && Unchanged(lf[k], rf[k]))
  {
    hide Diff, Applicable, Inherited, Unchanged;
    if k in lf && k in rf {
      ApplicableDiffs(lf[k], rf[k]);
      NoDelta(lf[k], rf[k]);
    }
  }

  lemma {:induction false} FieldsUnchanged(lf: map<Key, Json>, rf: map<Key, Json>)
    ensures Unchanged(Obj(lf), Obj(rf)) <==>
      lf.Keys == rf.Keys && forall k :: k in lf && k in rf ==> Unchanged(lf[k], rf[k])
  {
    if lf.Keys == rf.Keys && forall k :: k in lf && k in rf ==> Unchanged(lf[k], rf[k]) {
      assert forall k :: k in lf ==> Unchanged(lf[k], rf[k]);
      assert lf == rf;
    }
  }

  lemma {:induction false} FaithfulObject(lf: map<Key, Json>, rf: map<Key, Json>)
    requires SameNames(lf, rf) && forall k :: k in lf && k in rf ==> Applicable(lf[k], rf[k])
    ensures Applicable(Obj(lf), Obj(rf)) <==>
      (!Unchanged(Obj(lf), Obj(rf)) ==> "hasOwnProperty" !in lf && TagKept(lf, rf))
  {
    hide Diff, Inherited, Unchanged, NestedFields, SameNames;
    var ds := ObjectDiff(lf, rf);
    forall k: Key
      ensures k in ds <==> k in lf.Keys + rf.Keys && !(k in lf && k in rf && Unchanged(lf[k], rf[k]))
    {
      ChangedFields(lf, rf, ds, k);
    }
    FieldsUnchanged(lf, rf);
    var tag: Key := "_t";
    assert ds == map[] <==> forall k :: k in lf.Keys + rf.Keys ==> k !in ds;
    assert tag in ds <==> !TagKept(lf, rf);
  }

  /** What can be computed and applied, in terms of the values alone. */
  lemma {:induction false} FaithfulIff(l: Json, r: Json)
    ensures Faithful(l, r) <==> Applicable(l, r)
    decreases l
  {
    hide Diff, Unchanged, TagKept, MakePlan, SameNames;
    match (l, r)
    case (Obj(lf), Obj(rf)) =>
      forall k | k in lf && k in rf
        ensures Faithful(lf[k], rf[k]) <==> Applicable(lf[k], rf[k])
      {
        FaithfulIff(lf[k], rf[k]);
      }
      if SameNames(lf, rf) && forall k :: k in lf && k in rf ==> Applicable(lf[k], rf[k]) {
        FaithfulObject(lf, rf);
      }
    case (Arr(o), Arr(f)) =>
      MakePlanValid(o, f);
      var p := MakePlan(o, f);
      forall i | 0 <= i < |f| && p.src[i].Some?
        ensures Faithful(o[p.src[i].value], f[i]) <==> Applicable(o[p.src[i].value], f[i])
      {
        FaithfulIff(o[p.src[i].value], f[i]);
      }
    case _ =>
  }

  /** Patching a value with its diff gives the other value exactly for faithful pairs. */
  lemma {:induction false} RoundTrip(l: Json, r: Json)
    ensures DiffPatch(l, r) == Some(r) <==> Faithful(l, r)
  {
    FaithfulIff(l, r);
    RestoresAll(l, r);
    if Applicable(l, r) {
      ApplicableDiffs(l, r);
    }
  }

  /** The delta is undefined, and no inherited name was overlooked, exactly for unchanged values. */
  lemma {:induction false} NoDeltaIff(l: Json, r: Json)
    ensures !DiffThrows(l, r) && Diff(l, r) == None && Faithful(l, r) <==> Unchanged(l, r)
  {
    FaithfulIff(l, r);
    NoDelta(l, r);
  }

  /** An array with a scalar and an object differs from itself. */
  lemma {:induction false} MixedArrayDiffersFromItself()
    ensures Diff(Arr([Null, Obj(map[])]), Arr([Null, Obj(map[])])).Some?
  {
    var a := [Null, Obj(map[])];
    assert Scalar(a[0]) && !Scalar(a[1]);
    assert !Unmixed(a);
    SelfDiff(Arr(a));
  }

  // ---------------------------------------------------------------- when the patch succeeds

  /** No object, at any depth, has the key `_t` or an inherited name as a key. */
  ghost predicate NoReserved(j: Json) {
    match j
    case Arr(items) => forall i :: 0 <= i < |items| ==> NoReserved(items[i])
    case Obj(fields) => forall k :: k in fields ==> k != "_t" && !Inherited(k) && NoReserved(fields[k])
    case _ => true
  }

  lemma {:induction false} NoReservedFaithful(l: Json, r: Json)
    requires NoReserved(l) && NoReserved(r)
    ensures Faithful(l, r)
    decreases l
  {
    hide Unchanged, MakePlan;
    match (l, r)
    case (Obj(lf), Obj(rf)) =>
      OwnIsInherited();
      forall k | k in lf && k in rf
        ensures Faithful(lf[k], rf[k])
      {
        NoReservedFaithful(lf[k], rf[k]);
      }
    case (Arr(o), Arr(f)) =>
      MakePlanValid(o, f);
      var p := MakePlan(o, f);
      forall i | 0 <= i < |f| && p.src[i].Some?
        ensures Faithful(o[p.src[i].value], f[i])
      {
        NoReservedFaithful(o[p.src[i].value], f[i]);
      }
    case _ =>
  }

  /** The promise for values that avoid the reserved keys. */
  lemma {:induction false} PatchRestores(l: Json, r: Json)
    requires NoReserved(l) && NoReserved(r)
    ensures DiffPatch(l, r) == Some(r)
    ensures Diff(l, r) == None <==> Unchanged(l, r)
  {
    NoReservedFaithful(l, r);
    FaithfulIff(l, r);
    ApplicableDiffs(l, r);
    RoundTrip(l, r);
    NoDeltaIff(l, r);
  }

  /** An added inherited name is overlooked. */
  lemma {:induction false} AddedNameIsOverlooked()
    ensures var l, r := Obj(map[]), Obj(map["constructor" := Null]);
      l != r && !DiffThrows(l, r) && Diff(l, r) == None
  {
    var name: Key := "constructor";
    var l, r := map[], map[name := Null];
    assert Inherited(name);
    var ds := ObjectDiff(l, r);
    assert name !in ds;
    assert ds == map[];
    assert name in r && name !in l;
  }

  /** A removed inherited name makes the diff throw. */
  lemma {:induction false} RemovedNameThrows()
    ensures DiffThrows(Obj(map["toString" := Null]), Obj(map[]))
  {
    var name: Key := "toString";
    var l: map<Key, Json> := map[name := Null];
    assert Inherited(name) && name in l;
  }

  /** Nor can a value be patched to itself that has this key beside a mixed array. */
  lemma {:induction false} EqualValuesFail()
    ensures var v := Obj(map["hasOwnProperty" := Null, "a" := Arr([Null, Obj(map[])])]);
      !Faithful(v, v) && DiffPatch(v, v) != Some(v)
  {
    var own: Key, a: Key := "hasOwnProperty", "a";
    var items := [Null, Obj(map[])];
    var fields: map<Key, Json> := map[own := Null, a := Arr(items)];
    assert Scalar(items[0]) && !Scalar(items[1]);
    assert !Unmixed(items);
    assert own in fields && a in fields && !Uniform(fields[a]);
    RoundTrip(Obj(fields), Obj(fields));
  }

  /** A change in an object with the key `hasOwnProperty`, or under the key `_t`, cannot be patched. */
  lemma {:induction false} ReservedKeysFail(k: Key)
    requires k == "hasOwnProperty" || k == "_t"
    ensures var l, r := Obj(map[k := Bool(false)]), Obj(map[k := Bool(true)]);
      !DiffThrows(l, r) && Diff(l, r).Some? && DiffPatch(l, r) == None
  {
    var lf, rf := map[k := Bool(false)], map[k := Bool(true)];
    var ds := ObjectDiff(lf, rf);
    assert Diff(Bool(false), Bool(true)).Some?;
    assert k in lf && k in rf && k in ds;
    PatchNone(lf, ds);
  }

  // ---------------------------------------------------------------- reverse

  /** The positions that the entries of `gone` move items to. */
  ghost function Dests(gone: map<nat, Gone>): set<nat> {
    set x | x in gone && gone[x].MoveTo? :: gone[x].dest
  }

  /** The position that an item was moved to `t` from. */
  ghost function Origin(gone: map<nat, Gone>, t: nat): (x: nat)
    requires t in Dests(gone)
    ensures x in gone && gone[x] == MoveTo(t)
  {
    var x :| x in gone && gone[x] == MoveTo(t);
    x
  }

  /** Deletions become additions at the old positions. */
  ghost function ReversedAt(gone: map<nat, Gone>): map<nat, Delta> {
    map x | x in gone && gone[x].Deletion? :: Addition(gone[x].left)
  }

  /** Additions become deletions, and every move goes back. */
  ghost function ReversedGone(at: map<nat, Delta>, gone: map<nat, Gone>): map<nat, Gone> {
    (map t | t in at && at[t].Addition? :: Deletion(at[t].value))
      + (map t | t in Dests(gone) :: MoveTo(Origin(gone, t)))
  }

  /** The delta in the other direction; none if a filter throws, or for nested changes inside arrays, whose
      positions the code remaps. */
  ghost function Reverse(d: Delta): Option<Delta>
    decreases d
  {
    match d
    case Addition(v) => Some(Removal(v))
    case Removal(v) => Some(Addition(v))
    case Replacement(l, v) => Some(Replacement(v, l))
    case ObjD(ds) =>
      if ds == map[] || "_t" in ds || exists k :: k in ds && Reverse(ds[k]).None? then None
      else Some(ObjD(map k | k in ds :: Reverse(ds[k]).value))
    case ArrD(at, gone) =>
      if exists t :: t in at && !at[t].Addition? then None
      else Some(ArrD(ReversedAt(gone), ReversedGone(at, gone)))
  }

  /** Every array, at any depth, holds only scalars. */
  ghost predicate ScalarArrays(j: Json) {
    match j
    case Arr(items) => forall i :: 0 <= i < |items| ==> Scalar(items[i])
    case Obj(fields) => forall k :: k in fields ==> ScalarArrays(fields[k])
    case _ => true
  }

  /** The plan from the new array back to the old one. */
  ghost function BackPlan(p: Plan, c: nat): (q: Plan)
    ensures |q.src| == c
  {
    Plan(seq(c, x requires 0 <= x < c => if Some(x) in p.src then Some(Target(p, x)) else None),
         set x: nat | x < c && Some(x) in p.src && Target(p, x) in p.moved)
  }

  ghost function Target(p: Plan, x: nat): (i: nat)
    requires Some(x) in p.src
    ensures i < |p.src| && p.src[i] == Some(x)
  {
    var i :| 0 <= i < |p.src| && p.src[i] == Some(x);
    i
  }

  lemma {:induction false} BackPlanValid(o: seq<Json>, f: seq<Json>, p: Plan)
    requires ValidPlan(p, |o|, |f|)
    ensures ValidPlan(BackPlan(p, |o|), |f|, |o|)
    ensures forall i :: 0 <= i < |f| && p.src[i].Some? ==> Target(p, p.src[i].value) == i
  {
    forall i | 0 <= i < |f| && p.src[i].Some?
      ensures Some(p.src[i].value) in p.src && Target(p, p.src[i].value) == i
    {
      assert p.src[i] in p.src;
    }
  }

  /** What a plan records for each old position. */
  lemma {:induction false} GoneAt(o: seq<Json>, f: seq<Json>, p: Plan, x: nat)
    requires ValidPlan(p, |o|, |f|) && x < |o|
    ensures var gone := GoneItems(o, p);
      if Some(x) !in p.src then x in gone && gone[x] == Deletion(o[x])
      else if Target(p, x) in p.moved then x in gone && gone[x] == MoveTo(Target(p, x))
      else x !in gone
  {
    if Some(x) in p.src {
      var i := Target(p, x);
      if i in p.moved {
        assert !StaysPut(p, x);
        assert Dest(p, x, 0).Some?;
      } else {
        assert StaysPut(p, x);
      }
    } else {
      assert !StaysPut(p, x);
    }
  }

  lemma {:induction false} ReversedRecords(o: seq<Json>, f: seq<Json>, p: Plan)
    requires ValidPlan(p, |o|, |f|)
    ensures Records(f, o, BackPlan(p, |o|), ReversedAt(GoneItems(o, p)))
  {
    hide GoneItems, ValidPlan;
    var q := BackPlan(p, |o|);
    BackPlanValid(o, f, p);
    GoneBounded(o, p);
    forall x: nat | x < |o| {
      GoneAt(o, f, p, x);
    }
  }

  lemma {:induction false} GoneBounded(o: seq<Json>, p: Plan)
    ensures forall x :: x in GoneItems(o, p) ==> x < |o|
  {
  }

  lemma {:induction false} ReversedGoneAt(o: seq<Json>, f: seq<Json>, p: Plan, at: map<nat, Delta>, t: nat)
    requires Records(o, f, p, at) && (forall i :: i in at ==> at[i].Addition?) && t < |f|
    ensures var r, back := ReversedGone(at, GoneItems(o, p)), GoneItems(f, BackPlan(p, |o|));
      (t in r <==> t in back) && (t in r ==> r[t] == back[t])
  {
    hide GoneItems;
    var q, gone := BackPlan(p, |o|), GoneItems(o, p);
    BackPlanValid(o, f, p);
    GoneMoves(o, f, p);
    BackPlanValid(f, o, q);
    GoneAt(f, o, q, t);
    if p.src[t].Some? {
      var x := p.src[t].value;
      assert p.src[t] in p.src && Target(p, x) == t;
      assert q.src[x] == Some(t) && q.src[x] in q.src;
      assert Target(q, t) == x;
    } else {
      assert Some(t) !in q.src;
    }
  }

  /** Reversing what was recorded for a plan records the plan back. */
  lemma {:induction false} ReverseRecords(o: seq<Json>, f: seq<Json>, p: Plan, at: map<nat, Delta>)
    requires Records(o, f, p, at) && forall t :: t in at ==> at[t].Addition?
    ensures ReversedGone(at, GoneItems(o, p)) == GoneItems(f, BackPlan(p, |o|))
  {
    hide GoneItems, ReversedGone;
    var r, back := ReversedGone(at, GoneItems(o, p)), GoneItems(f, BackPlan(p, |o|));
    ReversedGoneBounded(o, f, p, at);
    GoneBounded(f, BackPlan(p, |o|));
    forall t: nat
      ensures (t in r <==> t in back) && (t in r ==> r[t] == back[t])
    {
      if t < |f| {
        ReversedGoneAt(o, f, p, at, t);
      }
    }
    assert r.Keys == back.Keys;
  }

  lemma {:induction false} ReversedGoneBounded(o: seq<Json>, f: seq<Json>, p: Plan, at: map<nat, Delta>)
    requires Records(o, f, p, at)
    ensures forall t :: t in ReversedGone(at, GoneItems(o, p)) ==> t < |f|
  {
    hide GoneItems;
    GoneMoves(o, f, p);
  }

  /** An array delta between arrays of scalars can be reversed, and then it leads back. */
  lemma {:induction false} ArrayReverse(o: seq<Json>, f: seq<Json>, at: map<nat, Delta>)
    requires forall i :: 0 <= i < |o| ==> Scalar(o[i])
    requires forall i :: 0 <= i < |f| ==> Scalar(f[i])
    requires NestedDeltas(o, f, MakePlan(o, f), at)
    ensures var d := Reverse(ArrD(at, GoneItems(o, MakePlan(o, f))));
      d.Some? && Patch(Arr(f), d.value) == Some(Arr(o))
  {
    hide GoneItems, Planned, Fits, Rearranged, ReversedGone, ReversedAt, ValidPlan, BackPlan, Changed, MakePlan, Patch;
    var p := MakePlan(o, f);
    ScalarSources(o, f);
    ScalarAdditions(o, f, at);
    var q := BackPlan(p, |o|);
    var at', gone' := ReversedAt(GoneItems(o, p)), ReversedGone(at, GoneItems(o, p));
    ReversedRecords(o, f, p);
    ReverseRecords(o, f, p, at);
    RearrangedIsPlanned(f, o, q, at');
    PatchArray(f, at', gone');
    BackIsOld(o, f, p);
    AdditionsOnly(GoneItems(o, p), o);
  }

  lemma {:induction false} ScalarAdditions(o: seq<Json>, f: seq<Json>, at: map<nat, Delta>)
    requires var p := MakePlan(o, f);
      && NestedDeltas(o, f, p, at)
      && forall i :: 0 <= i < |f| && p.src[i].Some? ==> Identical(o[p.src[i].value], f[i])
    ensures Records(o, f, MakePlan(o, f), at) && forall t :: t in at ==> at[t].Addition?
  {
    hide MakePlan;
  }

  /** Between arrays of scalars every source is equal to its item. */
  lemma {:induction false} ScalarSources(o: seq<Json>, f: seq<Json>)
    requires forall i :: 0 <= i < |o| ==> Scalar(o[i])
    requires forall i :: 0 <= i < |f| ==> Scalar(f[i])
    ensures var p := MakePlan(o, f);
      && ValidPlan(p, |o|, |f|)
      && forall i :: 0 <= i < |f| && p.src[i].Some? ==> Identical(o[p.src[i].value], f[i])
  {
    hide MakePlan;
    MakePlanValid(o, f);
    var p := MakePlan(o, f);
    forall i | 0 <= i < |f| && p.src[i].Some?
      ensures Identical(o[p.src[i].value], f[i])
    {
      assert MatchItems(o, f, ByPosition(o, f), p.src[i].value, i);
    }
  }

  lemma {:induction false} BackIsOld(o: seq<Json>, f: seq<Json>, p: Plan)
    requires ValidPlan(p, |o|, |f|)
    requires forall i :: 0 <= i < |f| && p.src[i].Some? ==> Identical(o[p.src[i].value], f[i])
    ensures ValidPlan(BackPlan(p, |o|), |f|, |o|) && Planned(f, o, BackPlan(p, |o|)) == o
  {
    BackPlanValid(o, f, p);
  }

  lemma {:induction false} AdditionsOnly(gone: map<nat, Gone>, items: seq<Json>)
    requires forall t :: t in ReversedAt(gone) ==> t < |items|
    ensures Changed(items, ReversedAt(gone)) == Some(items)
  {
    assert forall t :: t in ReversedAt(gone) ==> ReversedAt(gone)[t].Addition?;
    assert Changed(items, ReversedAt(gone)).value == items;
  }

  lemma {:induction false} ReverseKinds(l: Json, r: Json)
    ensures Diff(l, r).Some? && Reverse(Diff(l, r).value).Some? ==>
      var d := Reverse(Diff(l, r).value).value; !d.Addition? && !d.Removal?
  {
    DiffKinds(l, r);
  }

  /** What a round trip the other way promises, if it gets as far as patching. */
  ghost predicate Reverses(l: Json, r: Json) {
    !DiffThrows(l, r) ==>
      match Diff(l, r)
      case None => l == r <==> Applicable(l, r)
      case Some(d) => Reverse(d).Some? && Patch(r, Reverse(d).value) == Some(l) <==> Applicable(l, r)
  }

  lemma {:induction false} ReversedReplacement(l: Json, r: Json)
    ensures Diff(l, r).Some? && Diff(l, r).value.Replacement? ==>
      Reverse(Diff(l, r).value) == Some(Replacement(r, l)) && Patch(r, Replacement(r, l)) == Some(l)
  {
    var ds, at := DiffCases(l, r);
  }

  /** The entries of the reversed delta of two objects. */
  lemma {:induction false} ReversedFields(lf: map<Key, Json>, rf: map<Key, Json>, ds: map<Key, Delta>,
                                          back: map<Key, Delta>)
    requires NestedFields(lf, rf, ds) && forall k :: k in lf && k !in rf ==> !Inherited(k)
    requires forall k :: k in lf && k in rf ==> Reverses(lf[k], rf[k]) && !DiffThrows(lf[k], rf[k])
    requires back.Keys == ds.Keys && forall k :: k in ds ==> Reverse(ds[k]) == Some(back[k])
    ensures (forall k :: FieldOk(rf, back, lf, k)) <==>
      SameNames(lf, rf) && forall k :: k in lf && k in rf ==> Applicable(lf[k], rf[k])
  {
    hide Diff, Applicable, Inherited, Patch;
    forall k | k in lf && k in rf
      ensures FieldOk(rf, back, lf, k) <==> Applicable(lf[k], rf[k])
    {
      DiffKinds(lf[k], rf[k]);
      ReverseKinds(lf[k], rf[k]);
      ReversedReplacement(lf[k], rf[k]);
    }
    forall k: Key | !(k in lf && k in rf)
      ensures FieldOk(rf, back, lf, k) <==> !(k in rf && Inherited(k))
    {
    }
  }

  lemma {:induction false} ReverseObject(ds: map<Key, Delta>) returns (back: map<Key, Delta>)
    requires ds != map[] && "_t" !in ds && forall k :: k in ds ==> Reverse(ds[k]).Some?
    ensures Reverse(ObjD(ds)) == Some(ObjD(back)) && back.Keys == ds.Keys
    ensures forall k :: k in ds ==> Reverse(ds[k]) == Some(back[k])
  {
    back := map k | k in ds :: Reverse(ds[k]).value;
  }

  lemma {:induction false} ReverseUnpatchable(lf: map<Key, Json>, rf: map<Key, Json>, ds: map<Key, Delta>,
                                              back: map<Key, Delta>)
    requires NestedFields(lf, rf, ds) && forall k :: k in lf && k !in rf ==> !Inherited(k)
    requires ds != map[] && "_t" !in ds && back.Keys == ds.Keys
    requires forall k :: k in ds && back[k].Removal? ==> k in rf
    ensures Unpatchable(rf, back) <==> "hasOwnProperty" in rf
  {
    hide Inherited, Diff;
    OwnIsInherited();
    SameKeys(ds, back);
  }

  lemma {:induction false} SameKeys(ds: map<Key, Delta>, back: map<Key, Delta>)
    requires back.Keys == ds.Keys && ds != map[]
    ensures back != map[]
  {
    var k :| k in ds;
    assert k in back.Keys;
  }

  lemma {:induction false} BackRemovals(lf: map<Key, Json>, rf: map<Key, Json>, ds: map<Key, Delta>,
                                        back: map<Key, Delta>)
    requires NestedFields(lf, rf, ds) && back.Keys == ds.Keys && forall k :: k in ds ==> Reverse(ds[k]) == Some(back[k])
    ensures forall k :: k in ds && back[k].Removal? ==> k in rf
  {
    hide Diff;
    forall k | k in ds && back[k].Removal?
      ensures k in rf
    {
      if k in lf && k in rf {
      } else {
        assert ds[k].Removal? || ds[k].Addition?;
      }
    }
  }

  lemma {:induction false} ObjectReverse(lf: map<Key, Json>, rf: map<Key, Json>, ds: map<Key, Delta>)
    requires NestedFields(lf, rf, ds) && !DiffThrows(Obj(lf), Obj(rf)) && Restores(Obj(lf), Obj(rf))
    requires Diff(Obj(lf), Obj(rf)) == if ds == map[] then None else Some(ObjD(ds))
    requires forall k :: k in lf && k in rf ==> Reverses(lf[k], rf[k])
    ensures Reverses(Obj(lf), Obj(rf))
  {
    hide Diff, Inherited, Unpatchable, Patch, Reverse;
    if ds != map[] && "_t" !in ds {
      if k :| k in ds && Reverse(ds[k]).None? {
        NotReversible(lf, rf, ds, k);
      } else {
        var back := ReverseObject(ds);
        BackRemovals(lf, rf, ds, back);
        ReverseUnpatchable(lf, rf, ds, back);
        ReversedFields(lf, rf, ds, back);
        HasOwn(lf, rf);
        if Unpatchable(rf, back) {
          PatchNone(rf, back);
        } else {
          PatchFields(rf, back, lf);
        }
      }
    } else if ds != map[] {
      MarkedReverse(ds);
    }
  }

  lemma {:induction false} HasOwn(lf: map<Key, Json>, rf: map<Key, Json>)
    requires forall k :: k in lf && k !in rf ==> !Inherited(k)
    ensures "hasOwnProperty" in lf ==> "hasOwnProperty" in rf
    ensures SameNames(lf, rf) ==> ("hasOwnProperty" in lf <==> "hasOwnProperty" in rf)
  {
    hide Inherited;
    OwnIsInherited();
  }

  lemma {:induction false} MarkedReverse(ds: map<Key, Delta>)
    requires "_t" in ds || exists k :: k in ds && Reverse(ds[k]).None?
    ensures Reverse(ObjD(ds)) == None
  {
  }

  /** A nested change that cannot be reversed belongs to an unfaithful pair. */
  lemma {:induction false} NotReversible(lf: map<Key, Json>, rf: map<Key, Json>, ds: map<Key, Delta>, k: Key)
    requires NestedFields(lf, rf, ds) && k in ds && Reverse(ds[k]).None?
    requires forall k :: k in lf && k in rf ==> Reverses(lf[k], rf[k]) && !DiffThrows(lf[k], rf[k])
    ensures Reverse(ObjD(ds)) == None && k in lf && k in rf && !Applicable(lf[k], rf[k])
  {
    hide Diff, Applicable;
  }

  lemma {:induction false} ReversesAll(l: Json, r: Json)
    requires ScalarArrays(l) && ScalarArrays(r)
    ensures Reverses(l, r)
    decreases l
  {
    RestoresAll(l, r);
    var ds, at := DiffCases(l, r);
    match (l, r)
    case (Obj(lf), Obj(rf)) =>
      forall k | k in lf && k in rf
        ensures Reverses(lf[k], rf[k])
      {
        ReversesAll(lf[k], rf[k]);
      }
      if !DiffThrows(l, r) {
        ObjectReverse(lf, rf, ds);
      }
    case (Arr(o), Arr(f)) =>
      ArrayReverse(o, f, at);
      ScalarsApplicable(o, f);
    case _ =>
  }

  lemma {:induction false} ScalarsApplicable(o: seq<Json>, f: seq<Json>)
    requires forall i :: 0 <= i < |o| ==> Scalar(o[i])
    requires forall i :: 0 <= i < |f| ==> Scalar(f[i])
    ensures Applicable(Arr(o), Arr(f))
  {
    ScalarSources(o, f);
  }

  /** What patching a value with the reversed delta from another one to it gives; none if something throws. */
  ghost function DiffUnpatch(l: Json, r: Json): Option<Json> {
    if DiffThrows(l, r) then None
    else match Diff(l, r)
      case None => Some(r)
      case Some(d) => match Reverse(d) case None => None case Some(e) => Patch(r, e)
  }

  /** For values whose arrays hold only scalars, patching the new value with the reversed delta gives the old value
      exactly for faithful pairs. */
  lemma {:induction false} ReverseRoundTrip(l: Json, r: Json)
    requires ScalarArrays(l) && ScalarArrays(r)
    ensures DiffUnpatch(l, r) == Some(l) <==> Faithful(l, r)
  {
    FaithfulIff(l, r);
    ReversesAll(l, r);
    if Applicable(l, r) {
      ApplicableDiffs(l, r);
    }
  }
}
