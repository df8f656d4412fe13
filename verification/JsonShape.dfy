/** What a delta consists of: it goes down to the parts that differ, and names no others. */
module JsonShape {
  import opened Wrappers
  import opened JsonPlan
  import opened JsonDiff

  /** No part of the delta replaces an object by an object, an array by an array, or a value by itself, and none is
      empty. */
  ghost predicate Structural(d: Delta) {
    match d
    case Replacement(left, value) =>
      left != value && !(left.Obj? && value.Obj?) && !(left.Arr? && value.Arr?)
    case ObjD(fields) => fields != map[] && forall k :: k in fields ==> Structural(fields[k])
    case ArrD(at, _) => forall i :: i in at ==> Structural(at[i])
    case _ => true
  }

  lemma {:induction false} DiffIsStructural(l: Json, r: Json)
    requires Diff(l, r).Some?
    ensures Structural(Diff(l, r).value)
    decreases l
  {
    hide MakePlan, Whole, GoneItems;
    match (l, r)
    case (Obj(lf), Obj(rf)) =>
      forall k | k in lf && k in rf && Diff(lf[k], rf[k]).Some?
        ensures Structural(Diff(lf[k], rf[k]).value)
      {
        DiffIsStructural(lf[k], rf[k]);
      }
    case (Arr(o), Arr(f)) =>
      MakePlanValid(o, f);
      var p := MakePlan(o, f);
      forall i | 0 <= i < |f| && p.src[i].Some? && Diff(o[p.src[i].value], f[i]).Some?
        ensures Structural(Diff(o[p.src[i].value], f[i]).value)
      {
        DiffIsStructural(o[p.src[i].value], f[i]);
      }
    case _ =>
  }

  /** The delta of two objects says of each key what became of it: removed, added, changed below, or nothing. */
  lemma {:induction false} KeysOfDelta(lf: map<Key, Json>, rf: map<Key, Json>, d: Delta, k: Key)
    requires Diff(Obj(lf), Obj(rf)) == Some(d)
    ensures d.ObjD? && d.fields.Keys <= lf.Keys + rf.Keys
    ensures k in lf && k !in rf ==> k in d.fields && d.fields[k] == Removal(lf[k])
    ensures k !in lf && k in rf && !Inherited(k) ==> k in d.fields && d.fields[k] == Addition(rf[k])
    ensures k in lf && k in rf && Unchanged(lf[k], rf[k]) ==> k !in d.fields
    ensures k in lf && k in rf && !Unchanged(lf[k], rf[k]) && Faithful(lf[k], rf[k]) && !DiffThrows(lf[k], rf[k]) ==>
      k in d.fields && !d.fields[k].Removal? && !d.fields[k].Addition?
  {
    hide Unchanged, Faithful, DiffThrows;
    if k in lf && k in rf {
      NoDeltaIff(lf[k], rf[k]);
    }
  }
}
