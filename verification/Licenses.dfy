/**
 * The generated list of what the binary is made of (src-tauri/licenses.rs):
 * the crates reached from the workspace, and the JavaScript packages reached
 * through the installed tree. Both are worklists over graphs with cycles.
 */
module Licenses {
  import opened Wrappers
  import opened Closure
  import opened Ordering

  // --- Crates ----------------------------------------------------------------

  /** A dependency of a package. A kind that is absent is a normal dependency. */
  datatype Dep = Dep(pkg: Option<string>, kinds: seq<Option<string>>)

  datatype Node = Node(id: Option<string>, deps: seq<Dep>)

  datatype Package = Package(id: Option<string>, name: Option<string>, version: Option<string>, license: Option<string>)

  /** The packages linked through `deps`: the normal ones that name a package. */
  function NormalOf(deps: seq<Dep>): seq<string> {
    if deps == [] then []
    else
      (if None in deps[0].kinds && deps[0].pkg.Some? then [deps[0].pkg.value] else []) + NormalOf(deps[1..])
  }

  /** What `id` links directly: the last node under that id says. */
  function Links(nodes: seq<Node>, id: string): seq<string> {
    if nodes == [] then []
    else if nodes[|nodes| - 1].id == Some(id) then NormalOf(nodes[|nodes| - 1].deps)
    else Links(nodes[..|nodes| - 1], id)
  }

  /** One of `deps` names `y`, and is a normal one among its kinds. */
  ghost predicate IsNormal(deps: seq<Dep>, y: string) {
    exists i :: 0 <= i < |deps| && deps[i].pkg == Some(y) && None in deps[i].kinds
  }

  /** The `i`-th node is the last that says anything of `x`. */
  ghost predicate IsNodeOf(nodes: seq<Node>, x: string, i: nat) {
    i < |nodes| && nodes[i].id == Some(x) && forall j | i < j < |nodes| :: nodes[j].id != Some(x)
  }

  /** `x` has `y` as a normal dependency. */
  ghost predicate Edge(nodes: seq<Node>, x: string, y: string) {
    exists i: nat :: IsNodeOf(nodes, x, i) && IsNormal(nodes[i].deps, y)
  }

  /** `p` leads from a member of the workspace to `id` along normal dependencies. */
  ghost predicate IsChain(nodes: seq<Node>, members: seq<string>, id: string, p: seq<string>) {
    && p != [] && p[0] in members && p[|p| - 1] == id
    && forall i | 0 < i < |p| :: Edge(nodes, p[i - 1], p[i])
  }

  /** `id` is linked into what the workspace builds. */
  ghost predicate Linked(nodes: seq<Node>, members: seq<string>, id: string) {
    exists p :: IsChain(nodes, members, id, p)
  }

  lemma {:induction false} NormalOfIsNormal(deps: seq<Dep>, y: string)
    ensures y in NormalOf(deps) <==> IsNormal(deps, y)
  {
    if deps != [] {
      NormalOfIsNormal(deps[1..], y);
      if i :| 0 <= i < |deps| && deps[i].pkg == Some(y) && None in deps[i].kinds {
        assert i > 0 ==> deps[1..][i - 1] == deps[i];
      }
      if IsNormal(deps[1..], y) {
        var i :| 0 <= i < |deps[1..]| && deps[1..][i].pkg == Some(y) && None in deps[1..][i].kinds;
        assert deps[i + 1] == deps[1..][i];
      }
    }
  }

  lemma {:induction false} LinksAreEdges(nodes: seq<Node>, x: string, y: string)
    ensures y in Links(nodes, x) <==> Edge(nodes, x, y)
  {
    if nodes != [] {
      var n := |nodes| - 1;
      if nodes[n].id == Some(x) {
        NormalOfIsNormal(nodes[n].deps, y);
        assert IsNodeOf(nodes, x, n);
      } else {
        LinksAreEdges(nodes[..n], x, y);
        assert forall i: nat :: IsNodeOf(nodes, x, i) <==> IsNodeOf(nodes[..n], x, i);
      }
    }
  }

  lemma LinkedIsReached(nodes: seq<Node>, members: seq<string>, id: string)
    ensures Linked(nodes, members, id) <==> Reaches(LinksOf(nodes), members, id)
  {
    forall x, y ensures y in LinksOf(nodes)(x) <==> Edge(nodes, x, y) {
      LinksAreEdges(nodes, x, y);
    }
    assert forall p :: IsChain(nodes, members, id, p) <==> PathTo(LinksOf(nodes), members, id, p);
  }

  method NormalDeps(nodes: seq<Node>) returns (deps: map<string, seq<string>>, ghost all: set<string>)
    ensures forall id :: Links(nodes, id) == if id in deps then deps[id] else []
    ensures forall id | id in deps :: forall d | d in deps[id] :: d in all
  {
    deps := map[];
    all := {};
    for i := 0 to |nodes|
      invariant forall id :: Links(nodes[..i], id) == if id in deps then deps[id] else []
      invariant forall id | id in deps :: forall d | d in deps[id] :: d in all
    {
      if nodes[i].id.Some? {
        deps := deps[nodes[i].id.value := NormalOf(nodes[i].deps)];
        all := all + set d | d in NormalOf(nodes[i].deps);
      }
      assert nodes[..i + 1][..i] == nodes[..i];
    }
    assert nodes[..|nodes|] == nodes;
  }

  ghost function LinksOf(nodes: seq<Node>): string -> seq<string> {
    x => Links(nodes, x)
  }

  /**
   * The worklist: a stack of packages still to visit. Whatever set holds the
   * members and is closed under links holds everything it finds.
   */
  method Walk(deps: map<string, seq<string>>, members: seq<string>, ghost universe: set<string>, ghost closed: iset<string>)
    returns (linked: set<string>)
    requires forall m | m in members :: m in universe && m in closed
    requires forall id, d | id in deps && d in deps[id] :: d in universe
    requires forall id, d | id in closed && id in deps && d in deps[id] :: d in closed
    ensures forall m | m in members :: m in linked
    ensures forall id, d | id in linked && id in deps && d in deps[id] :: d in linked
    ensures forall x | x in linked :: x in closed
  {
    linked := {};
    var pending := members;
    while pending != []
      invariant linked <= universe
      invariant forall x | x in pending :: x in universe && x in closed
      invariant forall x | x in linked :: x in closed
      invariant forall m | m in members :: m in linked || m in pending
      invariant forall id, d | id in linked && id in deps && d in deps[id] :: d in linked || d in pending
      decreases |universe - linked|, |pending|
    {
      var id := pending[|pending| - 1];
      ghost var popped := pending;
      pending := pending[..|pending| - 1];
      assert forall x :: x in popped <==> x == id || x in pending;
      if id !in linked {
        LessToVisit(universe, linked, id);
        linked := linked + {id};
        if id in deps {
          pending := pending + deps[id];
        }
      }
    }
  }

  lemma LinkedIsClosed(nodes: seq<Node>, members: seq<string>, reached: iset<string>)
    requires reached == iset id | Linked(nodes, members, id)
    ensures forall m | m in members :: m in reached
    ensures forall id, d | id in reached && d in Links(nodes, id) :: d in reached
  {
    forall m | m in members ensures m in reached {
      RootsAreReached(LinksOf(nodes), members, m);
      LinkedIsReached(nodes, members, m);
    }
    forall id, d | id in reached && d in Links(nodes, id) ensures d in reached {
      LinkedIsReached(nodes, members, id);
      NextIsReached(LinksOf(nodes), members, id, d);
      LinkedIsReached(nodes, members, d);
    }
  }

  lemma ClosedHoldsLinked(nodes: seq<Node>, members: seq<string>, found: set<string>, id: string)
    requires forall m | m in members :: m in found
    requires forall x, d | x in found && d in Links(nodes, x) :: d in found
    requires Linked(nodes, members, id)
    ensures id in found
  {
    LinkedIsReached(nodes, members, id);
    ReachedIsInside(LinksOf(nodes), members, x => x in found, id);
  }

  /** The packages linked into what the workspace builds: all that are reached from its members, and no other. */
  method LinkedFrom(nodes: seq<Node>, members: seq<string>) returns (linked: set<string>)
    ensures forall id :: id in linked <==> Linked(nodes, members, id)
  {
    var deps, all := NormalDeps(nodes);
    ghost var reached := iset id | Linked(nodes, members, id);
    LinkedIsClosed(nodes, members, reached);
    assert forall id, d | id in deps && d in deps[id] :: d in Links(nodes, id);
    linked := Walk(deps, members, all + (set m | m in members), reached);
    forall id | Linked(nodes, members, id) ensures id in linked {
      ClosedHoldsLinked(nodes, members, linked, id);
    }
  }

  /** A package that ships: it is linked, and it is not the workspace's own. */
  ghost predicate Ships(nodes: seq<Node>, members: seq<string>, p: Package) {
    p.id.Some? && Linked(nodes, members, p.id.value) && p.id.value !in members
  }

  function DependencyOf(p: Package): Dependency {
    Dependency(if p.name.Some? then p.name.value else "unknown", if p.version.Some? then p.version.value else "", p.license)
  }

  /** `d` is called what the package is: a name that is missing is unknown, and a version that is missing is empty. */
  ghost predicate IsCalled(p: Package, d: Dependency) {
    && (p.name == Some(d.name) || (p.name == None && d.name == "unknown"))
    && (p.version == Some(d.version) || (p.version == None && d.version == ""))
  }

  /** `d` is an entry of one of the packages, which ships, with its terms. */
  ghost predicate IsOf(nodes: seq<Node>, members: seq<string>, packages: seq<Package>, d: Dependency) {
    exists p :: p in packages && p.id.Some? && p.id.value !in members && Linked(nodes, members, p.id.value)
                && IsCalled(p, d) && d.license == p.license
  }

  /** Some entry is called what the package is. */
  ghost predicate Names(r: seq<Dependency>, p: Package) {
    exists d :: d in r && IsCalled(p, d)
  }

  ghost predicate IsEntry(nodes: seq<Node>, members: seq<string>, packages: seq<Package>, d: Dependency) {
    exists p :: p in packages && Ships(nodes, members, p) && d == DependencyOf(p)
  }

  lemma EntryIsOf(nodes: seq<Node>, members: seq<string>, packages: seq<Package>, d: Dependency)
    requires IsEntry(nodes, members, packages, d)
    ensures IsOf(nodes, members, packages, d)
  {
    var p :| p in packages && Ships(nodes, members, p) && d == DependencyOf(p);
    assert IsCalled(p, d);
  }

  /** What is found is listed once each, in order. */
  method Listing(found: seq<Dependency>) returns (r: seq<Dependency>)
    ensures InOrder(r)
    ensures forall d | d in r :: d in found
    ensures forall d | d in found :: Keeps(r, d)
  {
    var sorted := SortedBy(found);
    r := Dedup(sorted);
    SortedIsInOrder(r);
    forall d ensures d in sorted <==> d in found {
      assert d in multiset(sorted) <==> d in multiset(found);
    }
  }

  lemma KeptIsNamed(r: seq<Dependency>, p: Package)
    requires Keeps(r, DependencyOf(p))
    ensures Names(r, p)
  {
    var d :| d in r && SamePair(DependencyOf(p), d);
    assert IsCalled(p, d);
  }

  /** Every package that ships, as it is listed. */
  method Shipping(nodes: seq<Node>, members: seq<string>, packages: seq<Package>) returns (found: seq<Dependency>)
    ensures forall d | d in found :: IsEntry(nodes, members, packages, d)
    ensures forall p | p in packages && Ships(nodes, members, p) :: DependencyOf(p) in found
  {
    var linked := LinkedFrom(nodes, members);
    found := [];
    for i := 0 to |packages|
      invariant forall d | d in found :: IsEntry(nodes, members, packages, d)
      invariant forall j | 0 <= j < i && Ships(nodes, members, packages[j]) :: DependencyOf(packages[j]) in found
    {
      var p := packages[i];
      if p.id.Some? && p.id.value in linked && p.id.value !in members {
        assert p in packages && Ships(nodes, members, p);
        found := found + [DependencyOf(p)];
      }
    }
  }

  /** The crates that ship, each name and version once, in order. */
  method RustDependencies(nodes: seq<Node>, members: seq<string>, packages: seq<Package>) returns (r: seq<Dependency>)
    ensures InOrder(r)
    ensures forall d | d in r :: IsOf(nodes, members, packages, d)
    ensures forall p | p in packages && p.id.Some? && p.id.value !in members && Linked(nodes, members, p.id.value) ::
              Names(r, p)
  {
    var found := Shipping(nodes, members, packages);
    r := Listing(found);
    forall d | d in r ensures IsOf(nodes, members, packages, d) {
      EntryIsOf(nodes, members, packages, d);
    }
    forall p | p in packages && p.id.Some? && p.id.value !in members && Linked(nodes, members, p.id.value)
      ensures Names(r, p)
    {
      assert Ships(nodes, members, p);
      KeptIsNamed(r, p);
    }
  }

  // --- JavaScript packages ---------------------------------------------------

  /** A directory, as the names that lead to it. */
  type Path = seq<string>

  datatype Manifest = Manifest(version: Option<string>, license: Option<string>, deps: seq<string>, optional: seq<string>)

  /** Every directory that holds a `package.json`, with what it says when it can be read. */
  type Tree = map<Path, Option<Manifest>>

  /** A dependency wanted by name from a package's directory. */
  datatype Demand = Demand(name: string, from: Path)

  function Parts(name: string): (parts: seq<string>)
    ensures parts != []
  {
    if name == "" then [""]
    else
      var rest := Parts(name[1..]);
      if name[0] == '/' then [""] + rest else [[name[0]] + rest[0]] + rest[1..]
  }

  /** `parts` with a slash between them. */
  function Slashed(parts: seq<string>): string {
    if parts == [] then "" else if |parts| == 1 then parts[0] else parts[0] + "/" + Slashed(parts[1..])
  }

  /** A name leads through its parts between slashes, as in a scoped package's. */
  lemma {:induction false} PartsAreBetweenSlashes(name: string)
    ensures Slashed(Parts(name)) == name && forall p | p in Parts(name) :: '/' !in p
  {
    if name != "" {
      var rest := Parts(name[1..]);
      PartsAreBetweenSlashes(name[1..]);
      assert rest[0] in rest;
      if name[0] == '/' {
        assert ([""] + rest)[1..] == rest;
      } else {
        var parts := [[name[0]] + rest[0]] + rest[1..];
        assert parts[1..] == rest[1..];
        assert forall p | p in parts :: p == [name[0]] + rest[0] || p in rest;
      }
      assert name == [name[0]] + name[1..];
    }
  }

  function Place(dir: Path, name: string): Path {
    dir + ["node_modules"] + Parts(name)
  }

  /** The first `k` names of `from` lead to the nearest ancestor that holds `name`. */
  ghost predicate Nearest(tree: Tree, from: Path, name: string, k: nat) {
    && k <= |from| && Place(from[..k], name) in tree
    && forall j | k < j <= |from| :: Place(from[..j], name) !in tree
  }

  function Resolve(tree: Tree, from: Path, name: string): Option<Path>
    decreases |from|
  {
    if Place(from, name) in tree then Some(Place(from, name))
    else if from == [] then None
    else Resolve(tree, from[..|from| - 1], name)
  }

  /** A name resolves to the directory under its nearest ancestor that holds it, and to none only when none does. */
  lemma {:induction false} ResolveFindsTheNearest(tree: Tree, from: Path, name: string)
    ensures Resolve(tree, from, name).Some? ==>
              exists k: nat :: Nearest(tree, from, name, k) && Resolve(tree, from, name).value == Place(from[..k], name)
    ensures Resolve(tree, from, name).None? ==> forall k: nat | k <= |from| :: Place(from[..k], name) !in tree
    decreases |from|
  {
    assert from[..|from|] == from;
    if Place(from, name) in tree {
      assert Nearest(tree, from, name, |from|);
    } else if from != [] {
      var up := from[..|from| - 1];
      ResolveFindsTheNearest(tree, up, name);
      assert forall k | 0 <= k <= |up| :: up[..k] == from[..k];
      if Resolve(tree, up, name).Some? {
        var k: nat :| Nearest(tree, up, name, k) && Resolve(tree, up, name).value == Place(up[..k], name);
        assert Nearest(tree, from, name, k);
      }
    }
  }

  /** The walk from a package's own directory to the root, one directory at a time. */
  method ResolveInTree(tree: Tree, from: Path, name: string) returns (r: Option<Path>)
    ensures r == Resolve(tree, from, name)
  {
    var directory := from;
    while true
      invariant Resolve(tree, directory, name) == Resolve(tree, from, name)
      decreases |directory|
    {
      var candidate := Place(directory, name);
      if candidate in tree {
        return Some(candidate);
      }
      if directory == [] {
        return None;
      }
      directory := directory[..|directory| - 1];
    }
  }

  /** What a package needs to run: its dependencies and its optional ones, wanted from its directory. */
  function Wanted(tree: Tree, dir: Path): seq<Demand> {
    if dir in tree && tree[dir].Some? then
      var names := tree[dir].value.deps + tree[dir].value.optional;
      seq(|names|, i requires 0 <= i < |names| => Demand(names[i], dir))
    else []
  }

  /** The package in `dir` wants `name`: among its dependencies, or its optional ones. */
  ghost predicate Wants(tree: Tree, dir: Path, name: string) {
    dir in tree && tree[dir].Some? && (name in tree[dir].value.deps || name in tree[dir].value.optional)
  }

  lemma WantedIsWants(tree: Tree, dir: Path, d: Demand)
    ensures d in Wanted(tree, dir) <==> d.from == dir && Wants(tree, dir, d.name)
  {
    if d.from == dir && Wants(tree, dir, d.name) {
      var names := tree[dir].value.deps + tree[dir].value.optional;
      assert d.name in names;
      var i :| 0 <= i < |names| && names[i] == d.name;
      assert Wanted(tree, dir)[i] == d;
    }
  }

  /** `p` leads from what the root wants to `d`: each demand is of the package that the one before resolves to. */
  ghost predicate LeadsTo(tree: Tree, root: Path, d: Demand, p: seq<Demand>) {
    && p != [] && p[0].from == root && p[|p| - 1] == d
    && (forall i | 0 <= i < |p| :: Wants(tree, p[i].from, p[i].name))
    && forall i | 0 < i < |p| :: Resolve(tree, p[i - 1].from, p[i - 1].name) == Some(p[i].from)
  }

  lemma PathIsAChain(tree: Tree, root: Path, d: Demand, p: seq<Demand>)
    requires PathTo(NextOf(tree), Wanted(tree, root), d, p)
    ensures LeadsTo(tree, root, d, p)
  {
    WantedIsWants(tree, root, p[0]);
    forall i | 0 < i < |p|
      ensures Wants(tree, p[i].from, p[i].name) && Resolve(tree, p[i - 1].from, p[i - 1].name) == Some(p[i].from)
    {
      assert p[i] in Next(tree, p[i - 1]);
      WantedIsWants(tree, Resolve(tree, p[i - 1].from, p[i - 1].name).value, p[i]);
    }
  }

  lemma ChainIsAPath(tree: Tree, root: Path, d: Demand, p: seq<Demand>)
    requires LeadsTo(tree, root, d, p)
    ensures PathTo(NextOf(tree), Wanted(tree, root), d, p)
  {
    assert Wants(tree, p[0].from, p[0].name);
    WantedIsWants(tree, root, p[0]);
    forall i | 0 < i < |p| ensures p[i] in NextOf(tree)(p[i - 1]) {
      assert Wants(tree, p[i].from, p[i].name);
      WantedIsWants(tree, p[i].from, p[i]);
    }
  }

  /** What is asked for is what such chains lead to, and nothing else. */
  lemma AskedIsWanted(tree: Tree, root: Path, d: Demand)
    ensures Asked(tree, root, d) <==> exists p :: LeadsTo(tree, root, d, p)
  {
    if Asked(tree, root, d) {
      var p :| PathTo(NextOf(tree), Wanted(tree, root), d, p);
      PathIsAChain(tree, root, d, p);
    }
    if p: seq<Demand> :| LeadsTo(tree, root, d, p) {
      ChainIsAPath(tree, root, d, p);
    }
  }

  function Next(tree: Tree, d: Demand): seq<Demand> {
    var dir := Resolve(tree, d.from, d.name);
    if dir.Some? then Wanted(tree, dir.value) else []
  }

  ghost function NextOf(tree: Tree): Demand -> seq<Demand> {
    d => Next(tree, d)
  }

  /** The root's package, or something it needs, wants `d`. */
  ghost predicate Asked(tree: Tree, root: Path, d: Demand) {
    Reaches(NextOf(tree), Wanted(tree, root), d)
  }

  predicate Readable(tree: Tree, dir: Path) {
    dir in tree && tree[dir].Some?
  }

  /** Not installed, or its manifest cannot be read. */
  predicate Missing(tree: Tree, d: Demand) {
    var dir := Resolve(tree, d.from, d.name);
    dir.None? || !Readable(tree, dir.value)
  }

  /** Why there is no list: a manifest that cannot be read, or a package that is not present in the installed tree. */
  datatype Trouble = NotPresent(name: string) | NotReadable(dir: Path)

  /** What is wrong with what `d` asks for. */
  ghost predicate IsTrouble(tree: Tree, d: Demand, trouble: Trouble) {
    match trouble
    case NotPresent(name) => name == d.name && forall k: nat | k <= |d.from| :: Place(d.from[..k], name) !in tree
    case NotReadable(dir) =>
      !Readable(tree, dir) && exists k: nat :: Nearest(tree, d.from, d.name, k) && dir == Place(d.from[..k], d.name)
  }

  ghost predicate HasTrouble(tree: Tree, asked: iset<Demand>, trouble: Trouble) {
    exists d :: d in asked && IsTrouble(tree, d, trouble)
  }

  lemma TroubleIsMissing(tree: Tree, d: Demand, trouble: Trouble)
    ensures Resolve(tree, d.from, d.name).None? ==> IsTrouble(tree, d, NotPresent(d.name))
    ensures Resolve(tree, d.from, d.name).Some? && !Readable(tree, Resolve(tree, d.from, d.name).value) ==>
              IsTrouble(tree, d, NotReadable(Resolve(tree, d.from, d.name).value))
    ensures IsTrouble(tree, d, trouble) ==> Missing(tree, d)
  {
    ResolveFindsTheNearest(tree, d.from, d.name);
  }

  /** What is listed for the package in `dir`, wanted as `name`. */
  function EntryAt(tree: Tree, name: string, dir: Path): Dependency
    requires Readable(tree, dir)
  {
    var manifest := tree[dir].value;
    Dependency(name, if manifest.version.Some? then manifest.version.value else "", manifest.license)
  }

  function Label(d: Dependency): string {
    d.name + "@" + d.version
  }

  /** `d` resolves to a directory that was visited. */
  predicate Done(tree: Tree, visited: set<Path>, d: Demand) {
    var dir := Resolve(tree, d.from, d.name);
    dir.Some? && dir.value in visited
  }

  /** `via` has the name each directory was visited under; `source` the directory each label is listed for. */
  ghost predicate Collected(tree: Tree, placed: iset<(string, Path)>, visited: set<Path>, resolved: map<string, Dependency>,
                            via: map<Path, string>, source: map<string, Path>) {
    && visited == via.Keys && resolved.Keys == source.Keys
    && (forall p | p in via ::
          Readable(tree, p) && (via[p], p) in placed && Label(EntryAt(tree, via[p], p)) in resolved)
    && (forall l | l in resolved ::
          && Readable(tree, source[l]) && (resolved[l].name, source[l]) in placed
          && resolved[l] == EntryAt(tree, resolved[l].name, source[l]) && Label(resolved[l]) == l)
  }

  lemma CollectedMore(tree: Tree, placed: iset<(string, Path)>, visited: set<Path>, resolved: map<string, Dependency>,
                      via: map<Path, string>, source: map<string, Path>, name: string, dir: Path)
    requires Collected(tree, placed, visited, resolved, via, source)
    requires Readable(tree, dir) && (name, dir) in placed
    ensures var e := EntryAt(tree, name, dir);
            Collected(tree, placed, visited + {dir}, resolved[Label(e) := e], via[dir := name], source[Label(e) := dir])
  {
  }

  /** The first demands, and those of every visited directory, are done or pending. */
  ghost predicate Covered(tree: Tree, first: seq<Demand>, visited: set<Path>, pending: seq<Demand>) {
    && (forall d | d in first :: Done(tree, visited, d) || d in pending)
    && (forall p, d | p in visited && d in Wanted(tree, p) :: Done(tree, visited, d) || d in pending)
  }

  lemma CoverGoesOn(tree: Tree, first: seq<Demand>, visited: set<Path>, pending: seq<Demand>, dir: Path)
    requires pending != [] && Covered(tree, first, visited, pending)
    requires Resolve(tree, pending[0].from, pending[0].name) == Some(dir)
    ensures dir in visited ==> Covered(tree, first, visited, pending[1..])
    ensures Covered(tree, first, visited + {dir}, pending[1..] + Wanted(tree, dir))
  {
    assert forall x :: x in pending <==> x == pending[0] || x in pending[1..];
  }

  ghost predicate Walking(tree: Tree, first: seq<Demand>, closed: iset<Demand>, placed: iset<(string, Path)>,
                          visited: set<Path>, resolved: map<string, Dependency>, via: map<Path, string>,
                          source: map<string, Path>, pending: seq<Demand>) {
    && visited <= tree.Keys
    && (forall d | d in pending :: d in closed)
    && Collected(tree, placed, visited, resolved, via, source)
    && Covered(tree, first, visited, pending)
  }

  ghost predicate Follows(tree: Tree, closed: iset<Demand>, placed: iset<(string, Path)>) {
    && (forall d, e | d in closed && e in Next(tree, d) :: e in closed)
    && (forall d | d in closed && !Missing(tree, d) :: (d.name, Resolve(tree, d.from, d.name).value) in placed)
  }

  lemma WalkVisits(tree: Tree, first: seq<Demand>, closed: iset<Demand>, placed: iset<(string, Path)>,
                   visited: set<Path>, resolved: map<string, Dependency>, via: map<Path, string>,
                   source: map<string, Path>, pending: seq<Demand>, dir: Path)
    requires Walking(tree, first, closed, placed, visited, resolved, via, source, pending) && pending != []
    requires Follows(tree, closed, placed) && Resolve(tree, pending[0].from, pending[0].name) == Some(dir)
    requires Readable(tree, dir)
    ensures visited + {dir} <= tree.Keys
    ensures var e := EntryAt(tree, pending[0].name, dir);
            Walking(tree, first, closed, placed, visited + {dir}, resolved[Label(e) := e], via[dir := pending[0].name],
                    source[Label(e) := dir], pending[1..] + Wanted(tree, dir))
  {
    var d := pending[0];
    assert d in closed && !Missing(tree, d);
    CollectedMore(tree, placed, visited, resolved, via, source, d.name, dir);
    CoverGoesOn(tree, first, visited, pending, dir);
    assert forall x | x in Wanted(tree, dir) :: x in Next(tree, d);
  }

  lemma WalkSkips(tree: Tree, first: seq<Demand>, closed: iset<Demand>, placed: iset<(string, Path)>,
                  visited: set<Path>, resolved: map<string, Dependency>, via: map<Path, string>,
                  source: map<string, Path>, pending: seq<Demand>, dir: Path)
    requires Walking(tree, first, closed, placed, visited, resolved, via, source, pending) && pending != []
    requires Resolve(tree, pending[0].from, pending[0].name) == Some(dir) && dir in visited
    ensures Walking(tree, first, closed, placed, visited, resolved, via, source, pending[1..])
  {
    CoverGoesOn(tree, first, visited, pending, dir);
  }

  /**
   * The worklist: a queue of demands. Whatever set holds the first ones and is
   * closed under `Next` holds every demand it follows.
   */
  method Collect(tree: Tree, first: seq<Demand>, ghost closed: iset<Demand>, ghost placed: iset<(string, Path)>)
    returns (r: Result<map<string, Dependency>, Trouble>, visited: set<Path>,
             ghost via: map<Path, string>, ghost source: map<string, Path>)
    requires Follows(tree, closed, placed) && forall d | d in first :: d in closed
    ensures r.Err? ==> HasTrouble(tree, closed, r.error)
    ensures r.Ok? ==> Walking(tree, first, closed, placed, visited, r.value, via, source, [])
  {
    visited, via, source := {}, map[], map[];
    var resolved := map[];
    var pending := first;
    while pending != []
      invariant Walking(tree, first, closed, placed, visited, resolved, via, source, pending)
      decreases |tree.Keys - visited|, |pending|
    {
      var d := pending[0];
      assert d in pending;
      TroubleIsMissing(tree, d, NotPresent(d.name));
      var found := ResolveInTree(tree, d.from, d.name);
      if found.None? {
        return Err(NotPresent(d.name)), visited, via, source;
      }
      var dir := found.value;
      if dir in visited {
        WalkSkips(tree, first, closed, placed, visited, resolved, via, source, pending, dir);
        pending := pending[1..];
      } else {
        if dir !in tree || tree[dir].None? {
          return Err(NotReadable(dir)), visited, via, source;
        }
        WalkVisits(tree, first, closed, placed, visited, resolved, via, source, pending, dir);
        var manifest := tree[dir].value;
        var entry := Dependency(d.name, if manifest.version.Some? then manifest.version.value else "", manifest.license);
        LessToVisit(tree.Keys, visited, dir);
        visited := visited + {dir};
        via, source := via[dir := d.name], source[Label(entry) := dir];
        resolved := resolved[Label(entry) := entry];
        pending := pending[1..] + Wanted(tree, dir);
      }
    }
    r := Ok(resolved);
  }

  /** The package in `dir` is wanted as `name` by the root or by something it needs. */
  ghost predicate Installed(tree: Tree, root: Path, name: string, dir: Path) {
    exists d :: Asked(tree, root, d) && d.name == name && Resolve(tree, d.from, d.name) == Some(dir)
  }

  /** No two entries are for one pair, and no entry is there twice. */
  ghost predicate Distinct(ds: seq<Dependency>) {
    && (forall d, e | d in ds && e in ds && SamePair(d, e) :: d == e)
    && (forall d | d in ds :: multiset(ds)[d] == 1)
  }

  lemma CountedTwice(ds: seq<Dependency>, i: nat, j: nat)
    requires i < j < |ds| && ds[i] == ds[j]
    ensures multiset(ds)[ds[i]] >= 2
  {
    assert ds == ds[..j] + ds[j..];
    assert ds[i] in ds[..j] && ds[i] in ds[j..];
  }

  lemma DistinctAnywhere(ds: seq<Dependency>)
    requires Distinct(ds)
    ensures forall i, j | 0 <= i < j < |ds| :: !SamePair(ds[i], ds[j])
  {
    forall i, j | 0 <= i < j < |ds| ensures !SamePair(ds[i], ds[j]) {
      if ds[i] == ds[j] {
        CountedTwice(ds, i, j);
      }
    }
  }

  /** The values of a map, in the order they are listed in. */
  method ValuesInOrder(resolved: map<string, Dependency>) returns (r: seq<Dependency>)
    requires forall l | l in resolved :: Label(resolved[l]) == l
    ensures IsOrdered(resolved, r)
  {
    var values := [];
    var labels := resolved.Keys;
    while labels != {}
      invariant labels <= resolved.Keys
      invariant forall d :: d in values <==> Label(d) in resolved && resolved[Label(d)] == d && Label(d) !in labels
      invariant forall d | d in values :: multiset(values)[d] == 1
    {
      var l :| l in labels;
      assert resolved[l] !in values;
      values := values + [resolved[l]];
      labels := labels - {l};
    }
    r := SortedBy(values);
    forall d ensures d in r <==> d in values {
      assert d in multiset(r) <==> d in multiset(values);
    }
    assert Distinct(r);
    DistinctAnywhere(r);
    SortedAndDistinct(r);
  }

  /** Something wanted is missing: the list cannot be made. */
  ghost predicate Incomplete(tree: Tree, root: Path) {
    !Readable(tree, root) || exists d :: Asked(tree, root, d) && Missing(tree, d)
  }

  /** `e` is of the package installed in `dir`, as one of the names it is wanted under. */
  ghost predicate EntryOf(tree: Tree, root: Path, e: Dependency, dir: Path) {
    Installed(tree, root, e.name, dir) && Readable(tree, dir) && Repeats(tree[dir].value, e)
  }

  /** `e` has the version and the terms that the manifest declares. */
  ghost predicate Repeats(manifest: Manifest, e: Dependency) {
    && (manifest.version == Some(e.version) || (manifest.version == None && e.version == ""))
    && e.license == manifest.license
  }

  /** Something of `dir` is listed, under its label. */
  ghost predicate IsListed(tree: Tree, root: Path, list: seq<Dependency>, dir: Path) {
    exists d, e :: EntryOf(tree, root, d, dir) && e in list && Label(e) == Label(d)
  }

  /**
   * The list is strictly in order, with each label once; each entry is of an
   * installed package; each directory of one has its label listed.
   */
  ghost predicate Lists(tree: Tree, root: Path, list: seq<Dependency>) {
    && StrictlySorted(list) && InOrder(list)
    && (forall d, e | d in list && e in list && Label(d) == Label(e) :: d == e)
    && (forall e | e in list :: exists dir :: EntryOf(tree, root, e, dir))
    && (forall n, dir | Installed(tree, root, n, dir) :: IsListed(tree, root, list, dir))
  }

  lemma AskedFollows(tree: Tree, root: Path, closed: iset<Demand>, placed: iset<(string, Path)>)
    requires closed == iset d | Asked(tree, root, d)
    requires placed == iset name, dir | Installed(tree, root, name, dir) :: (name, dir)
    ensures Follows(tree, closed, placed) && forall d | d in Wanted(tree, root) :: d in closed
  {
    forall d | d in Wanted(tree, root) ensures Asked(tree, root, d) {
      RootsAreReached(NextOf(tree), Wanted(tree, root), d);
    }
    forall d, e | Asked(tree, root, d) && e in Next(tree, d) ensures Asked(tree, root, e) {
      NextIsReached(NextOf(tree), Wanted(tree, root), d, e);
    }
  }

  /** When the worklist runs dry, everything asked for has been visited. */
  lemma AskedIsDone(tree: Tree, root: Path, visited: set<Path>, d: Demand)
    requires Covered(tree, Wanted(tree, root), visited, []) && Asked(tree, root, d)
    ensures Done(tree, visited, d)
  {
    ReachedIsInside(NextOf(tree), Wanted(tree, root), x => Done(tree, visited, x), d);
  }

  lemma AskedIsPresent(tree: Tree, root: Path, placed: iset<(string, Path)>, visited: set<Path>,
                       resolved: map<string, Dependency>, via: map<Path, string>, source: map<string, Path>, d: Demand)
    requires Collected(tree, placed, visited, resolved, via, source) && Covered(tree, Wanted(tree, root), visited, [])
    requires Asked(tree, root, d)
    ensures !Missing(tree, d) && Resolve(tree, d.from, d.name).value in via
  {
    AskedIsDone(tree, root, visited, d);
  }

  lemma InstalledWasVisited(tree: Tree, root: Path, placed: iset<(string, Path)>, visited: set<Path>,
                            resolved: map<string, Dependency>, via: map<Path, string>, source: map<string, Path>,
                            name: string, dir: Path)
    requires Collected(tree, placed, visited, resolved, via, source) && Covered(tree, Wanted(tree, root), visited, [])
    requires Installed(tree, root, name, dir)
    ensures dir in via
  {
    var d :| Asked(tree, root, d) && d.name == name && Resolve(tree, d.from, d.name) == Some(dir);
    AskedIsPresent(tree, root, placed, visited, resolved, via, source, d);
  }

  lemma ListedIsInstalled(tree: Tree, root: Path, placed: iset<(string, Path)>, visited: set<Path>,
                          resolved: map<string, Dependency>, via: map<Path, string>, source: map<string, Path>, e: Dependency)
    requires Collected(tree, placed, visited, resolved, via, source)
    requires forall name, dir | (name, dir) in placed :: Installed(tree, root, name, dir)
    requires Label(e) in resolved && resolved[Label(e)] == e
    ensures EntryOf(tree, root, e, source[Label(e)])
  {
    assert (e.name, source[Label(e)]) in placed;
  }

  lemma InstalledIsListed(tree: Tree, root: Path, placed: iset<(string, Path)>, visited: set<Path>,
                          resolved: map<string, Dependency>, via: map<Path, string>, source: map<string, Path>,
                          list: seq<Dependency>, dir: Path)
    requires Collected(tree, placed, visited, resolved, via, source) && dir in via
    requires forall name, dir | (name, dir) in placed :: Installed(tree, root, name, dir)
    requires forall d :: d in list <==> Label(d) in resolved && resolved[Label(d)] == d
    ensures IsListed(tree, root, list, dir)
  {
    assert (via[dir], dir) in placed;
    var d := EntryAt(tree, via[dir], dir);
    assert EntryOf(tree, root, d, dir);
    assert resolved[Label(d)] in list && Label(resolved[Label(d)]) == Label(d);
  }

  lemma NothingIsMissing(tree: Tree, root: Path, placed: iset<(string, Path)>, visited: set<Path>,
                         resolved: map<string, Dependency>, via: map<Path, string>, source: map<string, Path>)
    requires Collected(tree, placed, visited, resolved, via, source) && Covered(tree, Wanted(tree, root), visited, [])
    requires Readable(tree, root)
    ensures !Incomplete(tree, root)
  {
    if d :| Asked(tree, root, d) && Missing(tree, d) {
      AskedIsPresent(tree, root, placed, visited, resolved, via, source, d);
    }
  }

  lemma WalkIsListed(tree: Tree, root: Path, placed: iset<(string, Path)>, visited: set<Path>,
                     resolved: map<string, Dependency>, via: map<Path, string>, source: map<string, Path>,
                     list: seq<Dependency>)
    requires Collected(tree, placed, visited, resolved, via, source) && Covered(tree, Wanted(tree, root), visited, [])
    requires forall name, dir | (name, dir) in placed :: Installed(tree, root, name, dir)
    requires StrictlySorted(list) && forall d :: d in list <==> Label(d) in resolved && resolved[Label(d)] == d
    ensures Lists(tree, root, list)
  {
    SortedIsInOrder(list);
    forall e | e in list ensures exists dir :: EntryOf(tree, root, e, dir) {
      ListedIsInstalled(tree, root, placed, visited, resolved, via, source, e);
    }
    assert forall d, e | d in list && e in list && Label(d) == Label(e) :: d == e;
    forall n, dir | Installed(tree, root, n, dir) ensures IsListed(tree, root, list, dir) {
      InstalledWasVisited(tree, root, placed, visited, resolved, via, source, n, dir);
      InstalledIsListed(tree, root, placed, visited, resolved, via, source, list, dir);
    }
  }

  /** What is listed under each label, when nothing that is wanted is missing: all of its values make the list. */
  ghost predicate Resolved(tree: Tree, root: Path, resolved: map<string, Dependency>) {
    && (forall l | l in resolved :: Label(resolved[l]) == l)
    && (forall list | IsOrdered(resolved, list) :: Lists(tree, root, list))
  }

  /** `list` is the values of `resolved`, in order. */
  ghost predicate IsOrdered(resolved: map<string, Dependency>, list: seq<Dependency>) {
    StrictlySorted(list) && forall d :: d in list <==> Label(d) in resolved && resolved[Label(d)] == d
  }

  lemma CollectionResolves(tree: Tree, root: Path, closed: iset<Demand>, placed: iset<(string, Path)>, visited: set<Path>,
                           resolved: map<string, Dependency>, via: map<Path, string>, source: map<string, Path>)
    requires Walking(tree, Wanted(tree, root), closed, placed, visited, resolved, via, source, []) && Readable(tree, root)
    requires placed == iset name, dir | Installed(tree, root, name, dir) :: (name, dir)
    ensures !Incomplete(tree, root) && Resolved(tree, root, resolved)
  {
    NothingIsMissing(tree, root, placed, visited, resolved, via, source);
    forall list | IsOrdered(resolved, list) ensures Lists(tree, root, list) {
      WalkIsListed(tree, root, placed, visited, resolved, via, source, list);
    }
  }

  /** Everything that the root's package, or something it needs, wants. */
  ghost function AllAsked(tree: Tree, root: Path): iset<Demand> {
    iset d | Asked(tree, root, d)
  }

  lemma TroubleIsThere(tree: Tree, root: Path, trouble: Trouble)
    requires HasTrouble(tree, AllAsked(tree, root), trouble)
    ensures Incomplete(tree, root)
  {
    var d :| d in AllAsked(tree, root) && IsTrouble(tree, d, trouble);
    TroubleIsMissing(tree, d, trouble);
  }

  /** Everything that is wanted, by label, or something that is missing. */
  method CollectAll(tree: Tree, root: Path) returns (r: Result<map<string, Dependency>, Trouble>)
    requires Readable(tree, root)
    ensures r.Err? <==> Incomplete(tree, root)
    ensures r.Err? ==> HasTrouble(tree, AllAsked(tree, root), r.error)
    ensures r.Ok? ==> Resolved(tree, root, r.value)
  {
    ghost var closed := AllAsked(tree, root);
    ghost var placed := iset name, dir | Installed(tree, root, name, dir) :: (name, dir);
    AskedFollows(tree, root, closed, placed);
    var visited;
    ghost var via, source;
    r, visited, via, source := Collect(tree, Wanted(tree, root), closed, placed);
    if r.Ok? {
      CollectionResolves(tree, root, closed, placed, visited, r.value, via, source);
    } else {
      TroubleIsThere(tree, root, r.error);
    }
  }

  // --- One directory, one name ------------------------------------------------

  /** No name that is wanted leads through a `node_modules` of its own. */
  ghost predicate PlainNames(tree: Tree, root: Path) {
    forall d | Asked(tree, root, d) :: "node_modules" !in Parts(d.name)
  }

  lemma {:induction false} PartsAreOneName(m: string, n: string)
    requires Parts(m) == Parts(n)
    ensures m == n
  {
    assert m != "" ==> (m[0] == '/' <==> Parts(m)[0] == "");
    assert n != "" ==> (n[0] == '/' <==> Parts(n)[0] == "");
    if m != "" && n != "" {
      assert m[0] == '/' ==> Parts(m)[1..] == Parts(m[1..]);
      assert n[0] == '/' ==> Parts(n)[1..] == Parts(n[1..]);
      if m[0] != '/' {
        assert Parts(m[1..]) == [Parts(m)[0][1..]] + Parts(m)[1..];
        assert Parts(n[1..]) == [Parts(n)[0][1..]] + Parts(n)[1..];
        assert m[0] == Parts(m)[0][0] == Parts(n)[0][0] == n[0];
      }
      PartsAreOneName(m[1..], n[1..]);
      assert m == [m[0]] + m[1..] && n == [n[0]] + n[1..];
    }
  }

  lemma EndsThere(p: Path, x: Path)
    requires "node_modules" !in x
    ensures var w := p + ["node_modules"] + x; w[|p|] == "node_modules" && w[|p| + 1..] == x
    ensures var w := p + ["node_modules"] + x; forall i | |p| < i < |w| :: w[i] != "node_modules"
  {
    var w := p + ["node_modules"] + x;
    forall i | |p| < i < |w| ensures w[i] != "node_modules" {
      assert w[i] == x[i - |p| - 1];
    }
  }

  /** Where plain names lead to one directory, they are one name. */
  lemma PlaceIsOfOneName(p: Path, m: string, q: Path, n: string)
    requires Place(p, m) == Place(q, n) && "node_modules" !in Parts(m) && "node_modules" !in Parts(n)
    ensures m == n
  {
    EndsThere(p, Parts(m));
    EndsThere(q, Parts(n));
    assert |p| == |q|;
    PartsAreOneName(m, n);
  }

  lemma InstalledIsPlaced(tree: Tree, root: Path, name: string, dir: Path) returns (p: Path)
    requires PlainNames(tree, root) && Installed(tree, root, name, dir)
    ensures dir == Place(p, name) && "node_modules" !in Parts(name)
  {
    var d :| Asked(tree, root, d) && d.name == name && Resolve(tree, d.from, d.name) == Some(dir);
    ResolveFindsTheNearest(tree, d.from, d.name);
    var k: nat :| Nearest(tree, d.from, d.name, k) && dir == Place(d.from[..k], d.name);
    p := d.from[..k];
  }

  /** No directory is wanted under two names. */
  lemma OneName(tree: Tree, root: Path, m: string, n: string, dir: Path)
    requires PlainNames(tree, root) && Installed(tree, root, m, dir) && Installed(tree, root, n, dir)
    ensures m == n
  {
    var p := InstalledIsPlaced(tree, root, m, dir);
    var q := InstalledIsPlaced(tree, root, n, dir);
    PlaceIsOfOneName(p, m, q, n);
  }

  /** Something is installed whose `name@version` is `tag`. */
  ghost predicate Labels(tree: Tree, root: Path, tag: string) {
    exists e, dir :: EntryOf(tree, root, e, dir) && Label(e) == tag
  }

  /** The labels in the list are those of what is installed, all of them and no other. */
  ghost predicate ListsLabels(tree: Tree, root: Path, list: seq<Dependency>) {
    forall tag :: (exists e | e in list :: Label(e) == tag) <==> Labels(tree, root, tag)
  }

  lemma OneEntry(tree: Tree, root: Path, d: Dependency, e: Dependency, dir: Path)
    requires PlainNames(tree, root) && EntryOf(tree, root, d, dir) && EntryOf(tree, root, e, dir)
    ensures d == e
  {
    OneName(tree, root, d.name, e.name, dir);
  }

  lemma EveryLabelIsListed(tree: Tree, root: Path, list: seq<Dependency>)
    requires PlainNames(tree, root) && Lists(tree, root, list)
    ensures ListsLabels(tree, root, list)
  {
    forall tag | exists e | e in list :: Label(e) == tag ensures Labels(tree, root, tag) {
      var e :| e in list && Label(e) == tag;
      var dir :| EntryOf(tree, root, e, dir);
    }
    forall tag | Labels(tree, root, tag) ensures exists e | e in list :: Label(e) == tag {
      var e, dir :| EntryOf(tree, root, e, dir) && Label(e) == tag;
      assert IsListed(tree, root, list, dir);
      var d, f :| EntryOf(tree, root, d, dir) && f in list && Label(f) == Label(d);
      OneEntry(tree, root, d, e, dir);
    }
  }

  /**
   * The packages that ship with the frontend, listed, or an error exactly when
   * something wanted is missing: on every tree, whatever depends on whatever.
   */
  method NpmDependencies(tree: Tree, root: Path) returns (r: Result<seq<Dependency>, Trouble>)
    ensures r.Err? <==> Incomplete(tree, root)
    ensures r.Err? && !Readable(tree, root) ==> r.error == NotReadable(root)
    ensures r.Err? && Readable(tree, root) ==> HasTrouble(tree, AllAsked(tree, root), r.error)
    ensures r.Ok? ==> Lists(tree, root, r.value)
    ensures r.Ok? && PlainNames(tree, root) ==> ListsLabels(tree, root, r.value)
  {
    if root !in tree || tree[root].None? {
      return Err(NotReadable(root));
    }
    var resolved := CollectAll(tree, root);
    if resolved.Err? {
      return Err(resolved.error);
    }
    var list := ValuesInOrder(resolved.value);
    ListIsOfLabels(tree, root, list);
    r := Ok(list);
  }

  /** Entries that share a label are of one name and version, unless a version has an `@` in it. */
  lemma OneLabelIsOnePair(d: Dependency, e: Dependency)
    requires Label(d) == Label(e) && '@' !in d.version && '@' !in e.version
    ensures SamePair(d, e)
  {
    var l, m := Label(d), Label(e);
    assert l[|d.name|] == '@' && m[|e.name|] == '@';
    assert forall i | |d.name| < i < |l| :: l[i] == d.version[i - |d.name| - 1];
    assert forall i | |e.name| < i < |m| :: m[i] == e.version[i - |e.name| - 1];
    assert |d.name| == |e.name|;
    assert l[..|d.name|] == d.name && m[..|e.name|] == e.name;
    assert l[|d.name| + 1..] == d.version && m[|e.name| + 1..] == e.version;
  }

  lemma ListIsOfLabels(tree: Tree, root: Path, list: seq<Dependency>)
    requires Lists(tree, root, list)
    ensures PlainNames(tree, root) ==> ListsLabels(tree, root, list)
  {
    if PlainNames(tree, root) {
      EveryLabelIsListed(tree, root, list);
    }
  }

  /** No two entries have one label. */
  ghost predicate OneLabel(tree: Tree, root: Path) {
    forall d, e, p, q | EntryOf(tree, root, d, p) && EntryOf(tree, root, e, q) && Label(d) == Label(e) :: d == e
  }

  /** The list holds every entry of every installed package. */
  ghost predicate HoldsAll(tree: Tree, root: Path, list: seq<Dependency>) {
    forall e, dir | EntryOf(tree, root, e, dir) :: e in list
  }

  /** The list leaves an entry out exactly when two entries share a label: it lists one of the two. */
  lemma ListIsExact(tree: Tree, root: Path, list: seq<Dependency>)
    requires PlainNames(tree, root) && Lists(tree, root, list)
    ensures HoldsAll(tree, root, list) <==> OneLabel(tree, root)
  {
    EveryLabelIsListed(tree, root, list);
    if OneLabel(tree, root) {
      forall e, dir | EntryOf(tree, root, e, dir) ensures e in list {
        assert Labels(tree, root, Label(e));
        var f :| f in list && Label(f) == Label(e);
        var p :| EntryOf(tree, root, f, p);
      }
    }
  }
}
