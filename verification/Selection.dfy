/** Choosing some of a row of things, in their order. */
module Selection {
  import opened Wrappers

  /** `ys` are what `f` has for the numbers below `n`, in their order and all of them; `at` are the numbers it has something for. */
  ghost predicate Selects<Y>(n: nat, f: nat -> Option<Y>, at: seq<nat>, ys: seq<Y>) {
    && |at| == |ys|
    && (forall k | 0 <= k < |at| :: at[k] < n && f(at[k]) == Some(ys[k]))
    && (forall j, k | 0 <= j < k < |at| :: at[j] < at[k])
    && forall i | 0 <= i < n && f(i).Some? :: i in at
  }

  /** What `y` is, when it is anything. */
  function Any<Y>(y: Option<Y>): seq<Y> {
    if y.Some? then [y.value] else []
  }

  lemma SelectsOneMore<Y>(n: nat, f: nat -> Option<Y>, at: seq<nat>, ys: seq<Y>)
    requires Selects(n, f, at, ys)
    ensures Selects(n + 1, f, at + (if f(n).Some? then [n] else []), ys + Any(f(n)))
  {
    var more := at + if f(n).Some? then [n] else [];
    forall i | 0 <= i < n + 1 && f(i).Some? ensures i in more {
      if i == n {
        assert more[|at|] == n;
      }
    }
  }

  /** It does not matter what `f` has for other numbers. */
  lemma SelectsTheSame<Y>(n: nat, f: nat -> Option<Y>, g: nat -> Option<Y>, at: seq<nat>, ys: seq<Y>)
    requires Selects(n, f, at, ys) && forall i | 0 <= i < n :: f(i) == g(i)
    ensures Selects(n, g, at, ys)
  {
  }
}
