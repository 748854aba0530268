/** Resolution of the fixture list: the fixtures found in bundle and
    configured directories, then the configured classes with the classes
    they depend on, each fixture class loaded once. */
module Resolution {
  import opened Wrappers
  import opened World

  /** What resolution works on: the classes the fixture loader holds, in
      the order they were added, and the PHP classes declared so far. */
  datatype Loading = Loading(loader: seq<string>, declared: set<string>)

  /** The state after a step, and whether the step threw. */
  datatype Step = Step(st: Loading, outcome: Outcome<Error>)

  predicate Unique(s: seq<string>) {
    forall i, j :: 0 <= i < j < |s| ==> s[i] != s[j]
  }

  /** `b` is `a` with classes added at the end and more classes declared. */
  predicate Extends(a: Loading, b: Loading) {
    |a.loader| <= |b.loader| && b.loader[..|a.loader|] == a.loader && a.declared <= b.declared
  }

  /** A class name as PHP resolves it: without a leading `\`. */
  function Canonical(name: string): (c: string)
    ensures |c| <= |name|
  {
    if |name| > 0 && name[0] == '\\' then name[1..] else name
  }

  /** The name with a leading `\`, added when it has none. */
  function Qualify(name: string): (q: string)
    ensures |q| > 0 && q[0] == '\\'
    ensures Canonical(q) == Canonical(name)
  {
    if |name| > 0 && name[0] == '\\' then name else "\\" + name
  }

  /** The fixture classes not yet in the loader: each class added makes it smaller. */
  function Remaining(env: Env, loader: seq<string>): nat {
    |env.classes.Keys - set c | c in loader|
  }

  lemma RemainingShrinks(env: Env, a: seq<string>, b: seq<string>)
    requires |a| <= |b| && b[..|a|] == a
    ensures Remaining(env, b) <= Remaining(env, a)
  {
    var sa := set c | c in a;
    var sb := set c | c in b;
    forall x | x in sa ensures x in sb {
      InPrefix(a, b, x);
    }
    var ka := env.classes.Keys - sa;
    var kb := env.classes.Keys - sb;
    assert kb <= ka;
    SubsetCard(kb, ka);
  }

  lemma SubsetCard<T>(x: set<T>, y: set<T>)
    requires x <= y
    ensures |x| <= |y|
  {
    assert y == x + (y - x);
  }

  lemma RemainingAppend(env: Env, a: seq<string>, c: string)
    requires c in env.classes && c !in a
    ensures Remaining(env, a + [c]) < Remaining(env, a)
  {
    var before := env.classes.Keys - (set x | x in a);
    var after := env.classes.Keys - (set x | x in a + [c]);
    assert after == before - {c};
  }

  /** The dependencies of `c` that are already in `loader`. */
  predicate DepsIn(env: Env, c: string, loader: seq<string>) {
    c in env.classes ==> forall d :: d in env.classes[c].dependencies ==> Canonical(d) in loader
  }

  /** Every class from position `from` on has its dependencies in the loader. */
  predicate ClosedFrom(env: Env, loader: seq<string>, from: int) {
    forall i :: 0 <= from <= i < |loader| ==> DepsIn(env, loader[i], loader)
  }

  lemma ClosedFromGrows(env: Env, a: seq<string>, b: seq<string>, from: int)
    requires |a| <= |b| && b[..|a|] == a && ClosedFrom(env, a, from)
    ensures forall i :: 0 <= from <= i < |a| ==> DepsIn(env, b[i], b)
  {
    forall i | 0 <= from <= i < |a| ensures DepsIn(env, b[i], b) {
      assert b[i] == a[i];
      if b[i] in env.classes {
        forall d | d in env.classes[b[i]].dependencies ensures Canonical(d) in b {
          var k :| 0 <= k < |a| && a[k] == Canonical(d);
          assert b[k] == a[k];
        }
      }
    }
  }

  lemma InPrefix(a: seq<string>, b: seq<string>, x: string)
    requires |a| <= |b| && b[..|a|] == a && x in a
    ensures x in b
  {
    var k :| 0 <= k < |a| && a[k] == x;
    assert b[k] == a[k];
  }

  /** `loadFixtureClass`: instantiating the class declares it (or throws
      when there is no such class); a class the loader already holds adds
      nothing; otherwise the class is added and then, one after another,
      its dependencies are loaded. */
  function LoadClass(env: Env, st: Loading, name: string): (r: Step)
    ensures Extends(st, r.st)
    ensures Unique(st.loader) ==> Unique(r.st.loader)
    ensures r.outcome.Fail? ==> r.outcome.error.ClassNotFound?
    ensures r.outcome.Pass? ==> Canonical(name) in r.st.loader
    ensures r.outcome.Pass? ==> ClosedFrom(env, r.st.loader, |st.loader|)
    ensures Canonical(name) in env.classes && Canonical(name) !in st.loader
            ==> |r.st.loader| > |st.loader| && r.st.loader[|st.loader|] == Canonical(name)
    decreases Remaining(env, st.loader), 0, 0
  {
    var c := Canonical(name);
    if c !in env.classes then Step(st, Fail(ClassNotFound(name)))
    else
      var declared := st.declared + {c};
      if c in st.loader then Step(Loading(st.loader, declared), Pass)
      else
        var next := Loading(st.loader + [c], declared);
        RemainingAppend(env, st.loader, c);
        UniqueAppend(st.loader, c);
        var r := LoadDeps(env, next, env.classes[c].dependencies);
        AfterAppend(env, st.loader, c, r);
        r
  }

  lemma UniqueAppend(s: seq<string>, c: string)
    requires c !in s
    ensures Unique(s) ==> Unique(s + [c])
  {
  }

  /** What `LoadClass` concludes from loading the dependencies of `c` after
      appending it. */
  lemma AfterAppend(env: Env, a: seq<string>, c: string, r: Step)
    requires c in env.classes
    requires |a| + 1 <= |r.st.loader| && r.st.loader[..|a| + 1] == a + [c]
    requires r.outcome.Pass? ==> (forall d :: d in env.classes[c].dependencies ==> Canonical(d) in r.st.loader)
                                 && ClosedFrom(env, r.st.loader, |a| + 1)
    ensures r.st.loader[..|a|] == a && r.st.loader[|a|] == c
    ensures r.outcome.Pass? ==> ClosedFrom(env, r.st.loader, |a|)
  {
    assert r.st.loader[..|a|] == r.st.loader[..|a| + 1][..|a|];
    assert r.st.loader[|a|] == r.st.loader[..|a| + 1][|a|];
  }

  /** The dependencies loaded one after another; the first that throws stops
      the rest. */
  function LoadDeps(env: Env, st: Loading, deps: seq<string>): (r: Step)
    ensures Extends(st, r.st)
    ensures Unique(st.loader) ==> Unique(r.st.loader)
    ensures r.outcome.Fail? ==> r.outcome.error.ClassNotFound?
    ensures r.outcome.Pass? ==> forall d :: d in deps ==> Canonical(d) in r.st.loader
    ensures r.outcome.Pass? ==> ClosedFrom(env, r.st.loader, |st.loader|)
    decreases Remaining(env, st.loader), 1, |deps|
  {
    if deps == [] then Step(st, Pass)
    else
      var first := LoadClass(env, st, deps[0]);
      if first.outcome.Fail? then first
      else
        RemainingShrinks(env, st.loader, first.st.loader);
        var r := LoadDeps(env, first.st, deps[1..]);
        assert r.st.loader[..|st.loader|] == st.loader by {
          assert r.st.loader[..|st.loader|] == r.st.loader[..|first.st.loader|][..|st.loader|];
        }
        assert r.outcome.Pass? ==> Canonical(deps[0]) in r.st.loader by {
          if r.outcome.Pass? { InPrefix(first.st.loader, r.st.loader, Canonical(deps[0])); }
        }
        assert r.outcome.Pass? ==> ClosedFrom(env, r.st.loader, |st.loader|) by {
          if r.outcome.Pass? { ClosedFromGrows(env, first.st.loader, r.st.loader, |st.loader|); }
        }
        r
  }

  /** The dependencies from position `i` on: the `i`-th, then the rest. */
  lemma LoadDepsStep(env: Env, st: Loading, deps: seq<string>, i: nat)
    requires i < |deps|
    ensures LoadDeps(env, st, deps[i..])
         == var first := LoadClass(env, st, deps[i]);
            if first.outcome.Fail? then first else LoadDeps(env, first.st, deps[i + 1..])
  {
    assert deps[i..][0] == deps[i] && deps[i..][1..] == deps[i + 1..];
  }

  /** A class the loader already holds only gets declared again. */
  lemma LoadedClassAddsNothing(env: Env, st: Loading, name: string)
    requires Canonical(name) in env.classes && Canonical(name) in st.loader
    ensures LoadClass(env, st, name) == Step(st.(declared := st.declared + {Canonical(name)}), Pass)
  {
  }

  /** A fixture class the loader does not hold is added, then its
      dependencies are loaded. */
  lemma NewClassAppends(env: Env, st: Loading, name: string)
    requires Canonical(name) in env.classes && Canonical(name) !in st.loader
    ensures LoadClass(env, st, name)
         == LoadDeps(env, Loading(st.loader + [Canonical(name)], st.declared + {Canonical(name)}),
                     env.classes[Canonical(name)].dependencies)
  {
  }

  lemma ExtendsTransitive(a: Loading, b: Loading, c: Loading)
    requires Extends(a, b) && Extends(b, c)
    ensures Extends(a, c)
  {
    assert c.loader[..|a.loader|] == c.loader[..|b.loader|][..|a.loader|];
  }

  /** A class that does not exist throws and changes nothing. */
  lemma MissingClassThrows(env: Env, st: Loading, name: string)
    requires Canonical(name) !in env.classes
    ensures LoadClass(env, st, name) == Step(st, Fail(ClassNotFound(name)))
  {
  }

  /** The classes a directory yields, each added unless the loader holds it. */
  function AddNew(loader: seq<string>, classes: seq<string>): (r: seq<string>)
    ensures |loader| <= |r| && r[..|loader|] == loader
    ensures Unique(loader) ==> Unique(r)
    ensures forall c :: c in classes ==> c in r
    ensures forall c :: c in r ==> c in loader || c in classes
    decreases |classes|
  {
    if classes == [] then loader
    else
      var next := if classes[0] in loader then loader else loader + [classes[0]];
      var r := AddNew(next, classes[1..]);
      assert r[..|loader|] == r[..|next|][..|loader|];
      assert classes[0] in r by { InPrefix(next, r, classes[0]); }
      assert forall c :: c in loader ==> c in next;
      r
  }

  /** `Loader::loadFromDirectory`: a path that is not a directory throws;
      otherwise the directory's fixture classes are declared and added. */
  function LoadDirectory(env: Env, st: Loading, dir: string): (r: Step)
    ensures r.outcome.Fail? <==> dir !in env.directories
    ensures r.outcome.Fail? ==> r == Step(st, Fail(InvalidArgument("\"" + dir + "\" does not exist")))
    ensures Extends(st, r.st)
    ensures Unique(st.loader) ==> Unique(r.st.loader)
  {
    if dir !in env.directories then Step(st, Fail(InvalidArgument("\"" + dir + "\" does not exist")))
    else
      var found := if dir in env.directoryFixtures then env.directoryFixtures[dir] else [];
      Step(Loading(AddNew(st.loader, found), st.declared + set c | c in found), Pass)
  }

  /** `fetchFixturesFromDirectories`: every directory in order, stopping at
      the first that throws. */
  function LoadDirectories(env: Env, st: Loading, dirs: seq<string>): (r: Step)
    ensures r.outcome.Fail? <==> exists d :: d in dirs && d !in env.directories
    ensures r.outcome.Fail? ==> r.outcome.error.InvalidArgument?
    ensures Extends(st, r.st)
    ensures Unique(st.loader) ==> Unique(r.st.loader)
    decreases |dirs|
  {
    if dirs == [] then Step(st, Pass)
    else
      var first := LoadDirectory(env, st, dirs[0]);
      if first.outcome.Fail? then first
      else
        var r := LoadDirectories(env, first.st, dirs[1..]);
        assert r.st.loader[..|st.loader|] == r.st.loader[..|first.st.loader|][..|st.loader|];
        assert forall d :: d in dirs ==> d == dirs[0] || d in dirs[1..];
        r
  }

  /** The directories from position `i` on: the `i`-th, then the rest. */
  lemma LoadDirectoriesStep(env: Env, st: Loading, dirs: seq<string>, i: nat)
    requires i < |dirs|
    ensures LoadDirectories(env, st, dirs[i..])
         == var first := LoadDirectory(env, st, dirs[i]);
            if first.outcome.Fail? then first else LoadDirectories(env, first.st, dirs[i + 1..])
  {
    assert dirs[i..][0] == dirs[i] && dirs[i..][1..] == dirs[i + 1..];
  }

  /** `fetchFixturesFromClasses`: each configured name, given a leading `\`,
      is loaded unless its class is already declared. */
  function LoadClasses(env: Env, st: Loading, names: seq<string>): (r: Step)
    ensures Extends(st, r.st)
    ensures Unique(st.loader) ==> Unique(r.st.loader)
    ensures r.outcome.Fail? ==> r.outcome.error.ClassNotFound?
    ensures r.outcome.Pass? ==> forall n :: n in names ==> Canonical(n) in r.st.declared
    ensures r.outcome.Pass? ==> ClosedFrom(env, r.st.loader, |st.loader|)
    decreases |names|
  {
    if names == [] then Step(st, Pass)
    else
      var q := Qualify(names[0]);
      var first := if Canonical(q) in st.declared then Step(st, Pass) else LoadClass(env, st, q);
      if first.outcome.Fail? then first
      else
        var r := LoadClasses(env, first.st, names[1..]);
        assert r.st.loader[..|st.loader|] == r.st.loader[..|first.st.loader|][..|st.loader|];
        assert r.outcome.Pass? ==> ClosedFrom(env, r.st.loader, |st.loader|) by {
          if r.outcome.Pass? { ClosedFromGrows(env, first.st.loader, r.st.loader, |st.loader|); }
        }
        assert forall n :: n in names ==> n == names[0] || n in names[1..];
        r
  }

  /** One configured class: qualified, then loaded unless declared. */
  function LoadConfigured(env: Env, st: Loading, name: string): Step {
    var q := Qualify(name);
    if Canonical(q) in st.declared then Step(st, Pass) else LoadClass(env, st, q)
  }

  lemma LoadClassesStep(env: Env, st: Loading, names: seq<string>, i: nat)
    requires i < |names|
    ensures LoadClasses(env, st, names[i..])
         == var first := LoadConfigured(env, st, names[i]);
            if first.outcome.Fail? then first else LoadClasses(env, first.st, names[i + 1..])
  {
    assert names[i..][0] == names[i] && names[i..][1..] == names[i + 1..];
  }

  /** A configured class that is already declared is skipped. */
  lemma DeclaredClassSkipped(env: Env, st: Loading, name: string, rest: seq<string>)
    requires Canonical(name) in st.declared
    ensures LoadClasses(env, st, [name] + rest) == LoadClasses(env, st, rest)
  {
    assert ([name] + rest)[1..] == rest;
  }

  /** `getBundleFixtureDirectories`: `<bundle>/DataFixtures/ORM` of every
      bundle, in kernel order, kept when it is a directory. */
  function BundleDirectories(env: Env, paths: seq<string>): (dirs: seq<string>)
    ensures forall d :: d in dirs <==> d in env.directories && exists p :: p in paths && d == p + "/DataFixtures/ORM"
    ensures |dirs| <= |paths|
  {
    if paths == [] then []
    else
      var d := paths[0] + "/DataFixtures/ORM";
      var rest := BundleDirectories(env, paths[1..]);
      assert forall p :: p in paths ==> p == paths[0] || p in paths[1..];
      if d in env.directories then [d] + rest else rest
  }

  /** The directories `fetchFixtures` loads first: the bundle directories
      when autoloading, else none. */
  function AutoloadDirectories(env: Env, autoload: bool): seq<string> {
    if autoload then BundleDirectories(env, env.bundlePaths) else []
  }

  /** `fetchFixtures`: a new loader filled from the bundle directories, the
      configured directories and the configured classes, in that order. */
  function Resolve(env: Env, declared: set<string>, autoload: bool,
                   directories: seq<string>, classes: seq<string>): (r: Step)
    ensures Unique(r.st.loader)
    ensures declared <= r.st.declared
    ensures r.outcome.Fail? ==> r.outcome.error.InvalidArgument? || r.outcome.error.ClassNotFound?
    ensures r.outcome.Pass? ==> forall n :: n in classes ==> Canonical(n) in r.st.declared
  {
    var bundles := LoadDirectories(env, Loading([], declared), AutoloadDirectories(env, autoload));
    if bundles.outcome.Fail? then bundles
    else
      var dirs := LoadDirectories(env, bundles.st, directories);
      if dirs.outcome.Fail? then dirs
      else LoadClasses(env, dirs.st, classes)
  }

  /** The fixtures of the bundle directories come before those of the
      configured directories, and both before the configured classes. */
  lemma ResolveOrder(env: Env, declared: set<string>, autoload: bool,
                     directories: seq<string>, classes: seq<string>)
    requires Resolve(env, declared, autoload, directories, classes).outcome.Pass?
    ensures var bundles := LoadDirectories(env, Loading([], declared), AutoloadDirectories(env, autoload));
      var dirs := LoadDirectories(env, bundles.st, directories);
      var r := Resolve(env, declared, autoload, directories, classes);
      && Extends(bundles.st, dirs.st) && Extends(dirs.st, r.st)
      && r.st == LoadClasses(env, dirs.st, classes).st
      && ClosedFrom(env, r.st.loader, |dirs.st.loader|)
  {
  }

  /** A fixture class depending on another resolves to the class first and
      its dependency after it: the loader keeps this order and ordering by
      dependency is left to the executor. */
  lemma DependentClassExample(env: Env, fa: string, fb: string)
    requires env.classes == map["A" := FixtureClass(fa, []), "B" := FixtureClass(fb, ["A"])]
    ensures LoadClass(env, Loading([], {}), "\\B") == Step(Loading(["B", "A"], {"B", "A"}), Pass)
  {
    assert Canonical("\\B") == "B" && Canonical("A") == "A";
    var both := Loading(["B", "A"], {"B", "A"});
    assert LoadDeps(env, both, []) == Step(both, Pass);
    assert "A" !in ["B"] && ["B"] + ["A"] == ["B", "A"] && {"B"} + {"A"} == {"B", "A"};
    assert LoadClass(env, Loading(["B"], {"B"}), "A") == Step(both, Pass);
    assert LoadDeps(env, Loading(["B"], {"B"}), ["A"]) == Step(both, Pass) by {
      assert ["A"][1..] == [];
    }
    assert [] + ["B"] == ["B"] && {} + {"B"} == {"B"};
    assert LoadClass(env, Loading([], {}), "\\B") == LoadDeps(env, Loading(["B"], {"B"}), ["A"]);
  }

  /** Two fixture classes depending on each other are added once each, without
      looping; the ordering that later rejects the cycle is not modelled. */
  lemma CycleExample(env: Env, fa: string, fb: string)
    requires env.classes == map["A" := FixtureClass(fa, ["B"]), "B" := FixtureClass(fb, ["A"])]
    ensures LoadClass(env, Loading([], {}), "A") == Step(Loading(["A", "B"], {"A", "B"}), Pass)
  {
    assert Canonical("A") == "A" && Canonical("B") == "B";
    var both := Loading(["A", "B"], {"A", "B"});
    assert LoadDeps(env, both, []) == Step(both, Pass);
    assert LoadClass(env, both, "A") == Step(both, Pass);
    assert LoadDeps(env, both, ["A"]) == Step(both, Pass) by { assert ["A"][1..] == []; }
    assert "B" !in ["A"] && ["A"] + ["B"] == ["A", "B"] && {"A"} + {"B"} == {"A", "B"};
    assert LoadClass(env, Loading(["A"], {"A"}), "B") == Step(both, Pass);
    assert LoadDeps(env, Loading(["A"], {"A"}), ["B"]) == Step(both, Pass) by { assert ["B"][1..] == []; }
    assert [] + ["A"] == ["A"] && {} + {"A"} == {"A"};
    assert LoadClass(env, Loading([], {}), "A") == LoadDeps(env, Loading(["A"], {"A"}), ["B"]);
  }
}
