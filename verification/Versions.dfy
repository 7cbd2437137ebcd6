/** Version ranges, and the test the generator emits for one, specialised to the versions a
    message has. */
module Versions {
  import opened Common

  /** Inclusive; empty when `lo > hi`. */
  datatype Versions = Versions(lo: int, hi: int) {
    predicate IsEmpty() { lo > hi }
    predicate Contains(v: int) { lo <= v <= hi }
  }

  const NONE := Versions(0, -1)

  function Intersect(a: Versions, b: Versions): (r: Versions)
    ensures forall v :: r.Contains(v) <==> a.Contains(v) && b.Contains(v)
  {
    if a.IsEmpty() || b.IsEmpty() then NONE
    else
      var r := Versions(if a.lo >= b.lo then a.lo else b.lo, if a.hi <= b.hi then a.hi else b.hi);
      if r.IsEmpty() then NONE else r
  }

  predicate Covers(a: Versions, outer: Versions) {
    outer.IsEmpty() || (!a.IsEmpty() && a.lo <= outer.lo && a.hi >= outer.hi)
  }

  lemma CoversMeansAll(a: Versions, outer: Versions)
    ensures Covers(a, outer) <==> forall v :: outer.Contains(v) ==> a.Contains(v)
  {
    if !outer.IsEmpty() && (forall v :: outer.Contains(v) ==> a.Contains(v)) {
      assert outer.Contains(outer.lo) && outer.Contains(outer.hi);
    }
  }

  /** The emitted test; no test at all is `None` of these. */
  datatype Test = Never | AtLeast(lo: int) | AtMost(hi: int) | Within(lo: int, hi: int)

  function Condition(a: Versions, outer: Versions): Option<Test> {
    if a.IsEmpty() then Some(Never)
    else if Covers(a, outer) then None
    else if a.lo > outer.lo && a.hi < outer.hi then Some(Within(a.lo, a.hi))
    else if a.lo > outer.lo then Some(AtLeast(a.lo))
    else if a.hi < outer.hi then Some(AtMost(a.hi))
    else None
  }

  predicate Passes(t: Option<Test>, v: int) {
    match t
    case None => true
    case Some(Never) => false
    case Some(AtLeast(lo)) => v >= lo
    case Some(AtMost(hi)) => v <= hi
    case Some(Within(lo, hi)) => v >= lo && v <= hi
  }

  /** On every version the message has, the specialised test is membership. */
  lemma ConditionIsMembership(a: Versions, outer: Versions, v: int)
    requires outer.Contains(v)
    ensures Passes(Condition(a, outer), v) <==> a.Contains(v)
  {
  }
}
