/** Counting finite sets through injective maps. */
module Counting {

  ghost predicate Injective<A, B>(f: map<A, B>) {
    forall x, y :: x in f && y in f && x != y ==> f[x] != f[y]
  }

  /** A set that maps injectively into another is no larger. */
  lemma {:induction false} InjectionBound<A, B>(xs: set<A>, ys: set<B>, f: map<A, B>)
    requires f.Keys == xs && Injective(f) && forall x :: x in xs ==> f[x] in ys
    ensures |xs| <= |ys|
  {
    if xs != {} {
      var x :| x in xs;
      InjectionBound(xs - {x}, ys - {f[x]}, f - {x});
    }
  }
}
