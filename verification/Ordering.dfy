/** Dependencies in the order they are listed in, and the sort and dedup that put them there. */
module Ordering {
  import opened Wrappers

  /** A listed dependency: what it is called, its version, its terms when it declares any. */
  datatype Dependency = Dependency(name: string, version: string, license: Option<string>)

  predicate Less(a: string, b: string) {
    b != "" && (a == "" || a[0] < b[0] || (a[0] == b[0] && Less(a[1..], b[1..])))
  }

  lemma {:induction false} LessIsTotal(a: string, b: string)
    ensures Less(a, b) || a == b || Less(b, a)
    ensures !(Less(a, b) && (a == b || Less(b, a)))
  {
    if a != "" && b != "" {
      LessIsTotal(a[1..], b[1..]);
      if a[0] == b[0] && a[1..] == b[1..] {
        assert a == [a[0]] + a[1..] == b;
      }
    }
  }

  lemma {:induction false} LessIsTransitive(a: string, b: string, c: string)
    requires Less(a, b) && Less(b, c)
    ensures Less(a, c)
  {
    if a != "" && a[0] == b[0] == c[0] {
      LessIsTransitive(a[1..], b[1..], c[1..]);
    }
  }

  /** `a` comes before `b` in a dictionary: it is the beginning of `b`, or has a smaller letter where they first differ. */
  ghost predicate IsFirstByLetters(a: string, b: string) {
    exists k: nat :: DifferAt(a, b, k) && (k == |a| || a[k] < b[k])
  }

  /** They are alike up to `k`, and `b` goes on there. */
  ghost predicate DifferAt(a: string, b: string, k: nat) {
    k <= |a| && k < |b| && a[..k] == b[..k]
  }

  lemma {:induction false} LessIsByLetters(a: string, b: string)
    ensures Less(a, b) <==> IsFirstByLetters(a, b)
  {
    if a == "" || b == "" {
      assert b != "" ==> DifferAt(a, b, 0);
    } else {
      LessIsByLetters(a[1..], b[1..]);
      if a[0] < b[0] {
        assert DifferAt(a, b, 0);
      }
      if a[0] == b[0] && IsFirstByLetters(a[1..], b[1..]) {
        var k: nat :| DifferAt(a[1..], b[1..], k) && (k == |a[1..]| || a[1..][k] < b[1..][k]);
        assert a[..k + 1] == [a[0]] + a[1..][..k] && b[..k + 1] == [b[0]] + b[1..][..k];
        assert DifferAt(a, b, k + 1);
      }
      if k: nat :| DifferAt(a, b, k) && (k == |a| || a[k] < b[k]) {
        if k > 0 {
          assert a[..k][0] == b[..k][0];
          assert a[1..][..k - 1] == a[..k][1..] && b[1..][..k - 1] == b[..k][1..];
          assert DifferAt(a[1..], b[1..], k - 1);
        }
      }
    }
  }

  /** By name, and among one name by version; no pair twice. */
  ghost predicate InOrder(ds: seq<Dependency>) {
    forall i, j | 0 <= i < j < |ds| ::
      if ds[i].name == ds[j].name then IsFirstByLetters(ds[i].version, ds[j].version)
      else IsFirstByLetters(ds[i].name, ds[j].name)
  }

  lemma SortedIsInOrder(ds: seq<Dependency>)
    requires StrictlySorted(ds)
    ensures InOrder(ds)
  {
    forall i, j | 0 <= i < j < |ds|
      ensures if ds[i].name == ds[j].name then IsFirstByLetters(ds[i].version, ds[j].version)
              else IsFirstByLetters(ds[i].name, ds[j].name)
    {
      assert Before(ds[i], ds[j]);
      LessIsTotal(ds[i].name, ds[j].name);
      LessIsByLetters(ds[i].name, ds[j].name);
      LessIsByLetters(ds[i].version, ds[j].version);
    }
  }

  predicate Before(d: Dependency, e: Dependency) {
    Less(d.name, e.name) || (d.name == e.name && Less(d.version, e.version))
  }

  predicate SamePair(d: Dependency, e: Dependency) {
    d.name == e.name && d.version == e.version
  }

  lemma BeforeIsTotal(d: Dependency, e: Dependency)
    ensures Before(d, e) || SamePair(d, e) || Before(e, d)
    ensures !(Before(d, e) && (SamePair(d, e) || Before(e, d)))
  {
    LessIsTotal(d.name, e.name);
    LessIsTotal(d.version, e.version);
  }

  lemma BeforeIsTransitive(d: Dependency, e: Dependency, f: Dependency)
    requires !Before(e, d) && !Before(f, e)
    ensures !Before(f, d)
  {
    BeforeIsTotal(d, e);
    BeforeIsTotal(e, f);
    BeforeIsTotal(d, f);
    if Before(f, d) {
      if Before(d, e) && Less(f.name, d.name) && Less(d.name, e.name) { LessIsTransitive(f.name, d.name, e.name); }
      if Before(d, e) && f.name == d.name == e.name { LessIsTransitive(f.version, d.version, e.version); }
    }
  }

  /** Sorted, with equals next to each other in the order they came. */
  ghost predicate Sorted(ds: seq<Dependency>) {
    forall i, j | 0 <= i < j < |ds| :: !Before(ds[j], ds[i])
  }

  ghost predicate StrictlySorted(ds: seq<Dependency>) {
    forall i, j | 0 <= i < j < |ds| :: Before(ds[i], ds[j])
  }

  /** `ds` with `d` after everything that is not greater. */
  function Placed(ds: seq<Dependency>, d: Dependency): (r: seq<Dependency>)
    requires Sorted(ds)
    ensures Sorted(r) && multiset(r) == multiset(ds) + multiset{d}
  {
    if ds == [] then [d]
    else
      var last := ds[|ds| - 1];
      assert ds == ds[..|ds| - 1] + [last];
      if Before(d, last) then
        var init := Placed(ds[..|ds| - 1], d);
        PlacedStaysBelow(ds, d, init);
        init + [last]
      else
        AboveAll(ds, d);
        ds + [d]
  }

  lemma AboveAll(ds: seq<Dependency>, d: Dependency)
    requires Sorted(ds) && ds != [] && !Before(d, ds[|ds| - 1])
    ensures Sorted(ds + [d])
  {
    forall i | 0 <= i < |ds| ensures !Before(d, ds[i]) {
      if i < |ds| - 1 {
        BeforeIsTransitive(ds[i], ds[|ds| - 1], d);
      }
    }
  }

  lemma PlacedStaysBelow(ds: seq<Dependency>, d: Dependency, init: seq<Dependency>)
    requires Sorted(ds) && ds != [] && Before(d, ds[|ds| - 1]) && Sorted(init)
    requires multiset(init) == multiset(ds[..|ds| - 1]) + multiset{d}
    ensures Sorted(init + [ds[|ds| - 1]])
  {
    forall i | 0 <= i < |init| ensures !Before(ds[|ds| - 1], init[i]) {
      assert init[i] in multiset(init);
      BeforeIsTotal(d, ds[|ds| - 1]);
    }
  }

  function SortedBy(ds: seq<Dependency>): (r: seq<Dependency>)
    ensures Sorted(r) && multiset(r) == multiset(ds)
  {
    if ds == [] then []
    else
      assert ds == ds[..|ds| - 1] + [ds[|ds| - 1]];
      Placed(SortedBy(ds[..|ds| - 1]), ds[|ds| - 1])
  }

  ghost predicate Keeps(r: seq<Dependency>, d: Dependency) {
    exists e | e in r :: SamePair(d, e)
  }

  lemma KeepsMore(r: seq<Dependency>, d: Dependency, next: Dependency)
    requires Keeps(r, d) || SamePair(d, next)
    ensures Keeps(r + [next], d)
  {
    if Keeps(r, d) {
      var e :| e in r && SamePair(d, e);
      assert e in r + [next];
    } else {
      assert next in r + [next];
    }
  }

  /** The next different dependency comes after all that are kept. */
  lemma Later(ds: seq<Dependency>, r: seq<Dependency>, i: nat)
    requires Sorted(ds) && StrictlySorted(r) && 0 < i < |ds| && r != []
    requires SamePair(r[|r| - 1], ds[i - 1]) && !SamePair(r[|r| - 1], ds[i])
    ensures StrictlySorted(r + [ds[i]])
  {
    var last := r[|r| - 1];
    BeforeIsTotal(ds[i], ds[i - 1]);
    assert Before(last, ds[i]);
    forall k | 0 <= k < |r| ensures Before(r[k], ds[i]) {
      if k < |r| - 1 {
        BeforeIsTotal(r[k], last);
        BeforeIsTotal(last, ds[i]);
        BeforeIsTotal(r[k], ds[i]);
        BeforeIsTransitive(r[k], last, ds[i]);
      }
    }
  }

  /** `r` is `ds[..i]` without its repeats. */
  ghost predicate Deduped(ds: seq<Dependency>, i: nat, r: seq<Dependency>) {
    && i <= |ds|
    && StrictlySorted(r)
    && (forall d | d in r :: d in ds)
    && (i == 0 ==> r == [])
    && (i > 0 ==> r != [] && SamePair(r[|r| - 1], ds[i - 1]))
    && (forall j | 0 <= j < i :: Keeps(r, ds[j]))
  }

  lemma RepeatDropped(ds: seq<Dependency>, i: nat, r: seq<Dependency>)
    requires Deduped(ds, i, r) && i < |ds| && r != [] && SamePair(r[|r| - 1], ds[i])
    ensures Deduped(ds, i + 1, r)
  {
    assert r[|r| - 1] in r;
  }

  lemma NewOneKept(ds: seq<Dependency>, i: nat, r: seq<Dependency>)
    requires Sorted(ds) && Deduped(ds, i, r) && i < |ds| && (r == [] || !SamePair(r[|r| - 1], ds[i]))
    ensures Deduped(ds, i + 1, r + [ds[i]])
  {
    if i > 0 {
      Later(ds, r, i);
    }
    forall j | 0 <= j <= i ensures Keeps(r + [ds[i]], ds[j]) {
      KeepsMore(r, ds[j], ds[i]);
    }
  }

  /** Drop every dependency that repeats the one before it. */
  method Dedup(ds: seq<Dependency>) returns (r: seq<Dependency>)
    requires Sorted(ds)
    ensures StrictlySorted(r)
    ensures forall d | d in r :: d in ds
    ensures forall i | 0 <= i < |ds| :: Keeps(r, ds[i])
  {
    r := [];
    for i := 0 to |ds|
      invariant Deduped(ds, i, r)
    {
      if r == [] || !SamePair(r[|r| - 1], ds[i]) {
        NewOneKept(ds, i, r);
        r := r + [ds[i]];
      } else {
        RepeatDropped(ds, i, r);
      }
    }
  }

  /** Sorted dependencies of which no two are one pair are strictly sorted. */
  lemma SortedAndDistinct(ds: seq<Dependency>)
    requires Sorted(ds) && forall i, j | 0 <= i < j < |ds| :: !SamePair(ds[i], ds[j])
    ensures StrictlySorted(ds)
  {
    forall i, j | 0 <= i < j < |ds| ensures Before(ds[i], ds[j]) {
      BeforeIsTotal(ds[i], ds[j]);
    }
  }
}
