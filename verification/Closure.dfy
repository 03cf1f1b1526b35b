/** What can be reached along edges: the meaning that a worklist has to compute. */
module Closure {
  ghost predicate IsPath<T(!new)>(next: T -> seq<T>, p: seq<T>) {
    p != [] && forall i | 0 < i < |p| :: p[i] in next(p[i - 1])
  }

  ghost predicate PathTo<T(!new)>(next: T -> seq<T>, roots: seq<T>, x: T, p: seq<T>) {
    IsPath(next, p) && p[0] in roots && p[|p| - 1] == x
  }

  /** Some path leads from a root to `x`. */
  ghost predicate Reaches<T(!new)>(next: T -> seq<T>, roots: seq<T>, x: T) {
    exists p :: PathTo(next, roots, x, p)
  }

  lemma RootsAreReached<T(!new)>(next: T -> seq<T>, roots: seq<T>, x: T)
    requires x in roots
    ensures Reaches(next, roots, x)
  {
    assert PathTo(next, roots, x, [x]);
  }

  lemma NextIsReached<T(!new)>(next: T -> seq<T>, roots: seq<T>, x: T, y: T)
    requires Reaches(next, roots, x) && y in next(x)
    ensures Reaches(next, roots, y)
  {
    var p :| PathTo(next, roots, x, p);
    assert PathTo(next, roots, y, p + [y]);
  }

  /** Whatever holds of the roots and passes along every edge holds of everything reached. */
  lemma {:induction false} HoldsAlong<T(!new)>(next: T -> seq<T>, roots: seq<T>, inside: T -> bool, p: seq<T>, x: T)
    requires forall r | r in roots :: inside(r)
    requires forall a, b :: inside(a) && b in next(a) ==> inside(b)
    requires PathTo(next, roots, x, p)
    ensures inside(x)
  {
    if |p| > 1 {
      var q := p[..|p| - 1];
      assert PathTo(next, roots, p[|p| - 2], q);
      HoldsAlong(next, roots, inside, q, p[|p| - 2]);
      assert p[|p| - 1] in next(p[|p| - 2]);
    }
  }

  lemma ReachedIsInside<T(!new)>(next: T -> seq<T>, roots: seq<T>, inside: T -> bool, x: T)
    requires forall r | r in roots :: inside(r)
    requires forall a, b :: inside(a) && b in next(a) ==> inside(b)
    requires Reaches(next, roots, x)
    ensures inside(x)
  {
    var p :| PathTo(next, roots, x, p);
    HoldsAlong(next, roots, inside, p, x);
  }

  /** Visiting something new leaves less to visit. */
  lemma LessToVisit<T>(all: set<T>, visited: set<T>, x: T)
    requires x in all && x !in visited
    ensures |all - (visited + {x})| < |all - visited|
  {
    assert all - (visited + {x}) == all - visited - {x};
  }
}
