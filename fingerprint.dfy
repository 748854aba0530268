/** The fingerprint of a fixture set: every migration file with its
    modification time, and every fixture class with its file and that file's
    modification time, sorted; the backup of a database is named after it. */
module Fingerprint {
  import opened Wrappers
  import opened Strings
  import opened Sorting
  import opened World

  /** `FixtureService::$fixtures`: the configured class names until
      `fetchFixtures` replaces them with the loaded fixture objects, which
      are identified here by their class names. */
  datatype FixtureList = ClassNames(names: seq<string>) | Instances(classes: seq<string>)

  /** `filemtime` concatenated to a string: `false` for a missing file
      becomes empty text. */
  function MtimeText(env: Env, file: string): string {
    if file in env.mtime then NatToString(env.mtime[file]) else ""
  }

  /** `ReflectionClass::getFileName` of a fixture class. */
  function FileOf(env: Env, c: string): string {
    if c in env.classes then env.classes[c].file else ""
  }

  /** A migration entry with the modification time of its file appended. */
  function MigrationEntry(env: Env, e: (string, string)): (string, string) {
    (e.0, e.1 + "@" + MtimeText(env, e.1))
  }

  /** `class:file@mtime` of one fixture class. */
  function Descriptor(env: Env, c: string): string {
    c + ":" + FileOf(env, c) + "@" + MtimeText(env, FileOf(env, c))
  }

  /** What `generateHash` serializes. */
  function HashOf(env: Env, migrations: seq<(string, string)>, classes: seq<string>): HashInput {
    HashInput(
      MapSeq((e: (string, string)) => MigrationEntry(env, e), migrations),
      SortBy(MapSeq((c: string) => Descriptor(env, c), classes), LexLe))
  }

  /** `getHash`: the configured class names are strings, which `get_class`
      refuses under strict typing; the loaded fixtures are hashed. */
  function Hash(env: Env, migrations: seq<(string, string)>, fixtures: FixtureList): (r: Result<string, Error>)
    ensures r.Failure? <==> fixtures.ClassNames? && fixtures.names != []
    ensures r.Failure? ==> r.error.TypeError?
    ensures r.Success? ==> r.value == env.sha1(HashOf(env, migrations, Classes(fixtures)))
  {
    match fixtures
    case ClassNames(names) =>
      if names != [] then Failure(TypeError("get_class(): Argument #1 ($object) must be of type object, string given"))
      else Success(env.sha1(HashOf(env, migrations, [])))
    case Instances(classes) => Success(env.sha1(HashOf(env, migrations, classes)))
  }

  function Classes(fixtures: FixtureList): seq<string> {
    match fixtures
    case ClassNames(_) => []
    case Instances(classes) => classes
  }

  lemma LexLeOrders()
    ensures Total(LexLe) && Transitive(LexLe) && Antisymmetric(LexLe)
  {
    forall a, b ensures LexLe(a, b) || LexLe(b, a) { LexLeTotal(a, b); }
    forall a, b, c | LexLe(a, b) && LexLe(b, c) ensures LexLe(a, c) { LexLeTransitive(a, b, c); }
    forall a, b | LexLe(a, b) && LexLe(b, a) ensures a == b { LexLeAntisymmetric(a, b); }
  }

  /** The fixture descriptors are hashed sorted, one per fixture. */
  lemma HashedDescriptors(env: Env, migrations: seq<(string, string)>, classes: seq<string>)
    ensures var h := HashOf(env, migrations, classes);
      && |h.migrations| == |migrations|
      && (forall i :: 0 <= i < |migrations| ==> h.migrations[i] == MigrationEntry(env, migrations[i]))
      && Sorted(h.fixtures, LexLe)
      && multiset(h.fixtures) == multiset(MapSeq((c: string) => Descriptor(env, c), classes))
  {
    LexLeOrders();
    SortBySorted(MapSeq((c: string) => Descriptor(env, c), classes), LexLe);
  }

  /** The order the loader produced the fixtures in does not change the hash. */
  lemma HashIgnoresFixtureOrder(env: Env, migrations: seq<(string, string)>, a: seq<string>, b: seq<string>)
    requires multiset(a) == multiset(b)
    ensures Hash(env, migrations, Instances(a)) == Hash(env, migrations, Instances(b))
  {
    var f := (c: string) => Descriptor(env, c);
    MapSeqPermutation(f, a, b);
    LexLeOrders();
    SortByPermutation(MapSeq(f, a), MapSeq(f, b), LexLe);
  }

  /** Two texts split at their first `:` split the same way. */
  lemma ColonSplit(x: string, r: string, y: string, s: string)
    requires ':' !in x && ':' !in y && x + ":" + r == y + ":" + s
    ensures x == y && r == s
  {
    var t := x + ":" + r;
    forall i | 0 <= i < |x| ensures t[i] != ':' { assert t[i] == x[i]; }
    forall i | 0 <= i < |y| ensures t[i] != ':' { assert t[i] == (y + ":" + s)[i] == y[i]; }
    assert t[|x|] == ':' && t[|y|] == (y + ":" + s)[|y|] == ':';
    assert x == t[..|x|] && y == (y + ":" + s)[..|y|];
    assert r == t[|x| + 1..] && s == (y + ":" + s)[|y| + 1..];
  }

  lemma SamePrefixTail(p: string, u: string, v: string)
    requires p + u == p + v
    ensures u == v
  {
    assert u == (p + u)[|p|..] && v == (p + v)[|p|..];
  }

  /** A class's descriptor cannot be produced by any class once the
      modification time of its file is different. */
  lemma DescriptorChanges(env: Env, mtime: map<string, nat>, c: string, x: string)
    requires ':' !in x && ':' !in c && c in env.classes
    requires var f := env.classes[c].file;
      f in env.mtime && f in mtime && env.mtime[f] != mtime[f]
    ensures Descriptor(env.(mtime := mtime), x) != Descriptor(env, c)
  {
    var env2 := env.(mtime := mtime);
    var f := env.classes[c].file;
    var fx := FileOf(env2, x);
    assert Descriptor(env2, x) == x + ":" + (fx + "@" + MtimeText(env2, fx));
    assert Descriptor(env, c) == c + ":" + (f + "@" + MtimeText(env, f));
    if Descriptor(env2, x) == Descriptor(env, c) {
      ColonSplit(x, FileOf(env2, x) + "@" + MtimeText(env2, FileOf(env2, x)),
                 c, f + "@" + MtimeText(env, f));
      SamePrefixTail(f + "@", MtimeText(env2, f), MtimeText(env, f));
      NatToStringInjective(env.mtime[f], mtime[f]);
    }
  }

  /** Touching the file of a loaded fixture class changes what is hashed
      (class names cannot contain `:`). */
  lemma FixtureMtimeChangesHash(env: Env, mtime: map<string, nat>, migrations: seq<(string, string)>,
                                classes: seq<string>, c: string)
    requires forall x :: x in classes ==> ':' !in x
    requires c in classes && c in env.classes
    requires var f := env.classes[c].file;
      f in env.mtime && f in mtime && env.mtime[f] != mtime[f]
    ensures HashOf(env, migrations, classes) != HashOf(env.(mtime := mtime), migrations, classes)
  {
    var env2 := env.(mtime := mtime);
    var d1 := MapSeq((x: string) => Descriptor(env, x), classes);
    var d2 := MapSeq((x: string) => Descriptor(env2, x), classes);
    var i :| 0 <= i < |classes| && classes[i] == c;
    assert d1[i] == Descriptor(env, c);
    assert Descriptor(env, c) in multiset(d1);
    assert Descriptor(env, c) !in d2 by {
      forall j | 0 <= j < |d2| ensures d2[j] != Descriptor(env, c) {
        DescriptorChanges(env, mtime, c, classes[j]);
      }
    }
    assert multiset(HashOf(env, migrations, classes).fixtures) == multiset(d1);
    assert multiset(HashOf(env2, migrations, classes).fixtures) == multiset(d2);
  }

  /** Touching a migration file changes what is hashed. */
  lemma MigrationMtimeChangesHash(env: Env, mtime: map<string, nat>, migrations: seq<(string, string)>,
                                  classes: seq<string>, i: nat)
    requires i < |migrations|
    requires var f := migrations[i].1;
      f in env.mtime && f in mtime && env.mtime[f] != mtime[f]
    ensures HashOf(env, migrations, classes) != HashOf(env.(mtime := mtime), migrations, classes)
  {
    var env2 := env.(mtime := mtime);
    var f := migrations[i].1;
    assert HashOf(env, migrations, classes).migrations[i] == MigrationEntry(env, migrations[i]);
    assert HashOf(env2, migrations, classes).migrations[i] == MigrationEntry(env2, migrations[i]);
    if MigrationEntry(env, migrations[i]) == MigrationEntry(env2, migrations[i]) {
      SamePrefixTail(f + "@", MtimeText(env, f), MtimeText(env2, f));
      NatToStringInjective(env.mtime[f], mtime[f]);
    }
  }
}
