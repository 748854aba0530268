/** SQL migration discovery: the `*.sql` files of each configured directory
    (or of its per-driver sub-directory), keyed by the version read from the
    file name, later files overriding earlier ones with the same version,
    and ordered by version. */
module Migrations {
  import opened Wrappers
  import opened Strings
  import opened Sorting
  import opened World

  /** An entry of a PHP array: its key and its value. */
  type Entry = (string, string)

  /** The text after the last `/`. */
  function LastComponent(s: string): (r: string)
    ensures '/' !in r
    ensures |r| <= |s| && r == s[|s| - |r|..]
    ensures r == s || s[|s| - |r| - 1] == '/'
    decreases |s|
  {
    if '/' !in s then s
    else
      var i := IndexOf(s, '/');
      var r := LastComponent(s[i + 1..]);
      assert r == s[|s| - |r|..];
      r
  }

  function TrimTrailingSlashes(s: string): (r: string)
    ensures |r| <= |s| && r == s[..|r|]
    ensures r == [] || r[|r| - 1] != '/'
    ensures forall i :: |r| <= i < |s| ==> s[i] == '/'
  {
    if s != [] && s[|s| - 1] == '/' then TrimTrailingSlashes(s[..|s| - 1]) else s
  }

  /** PHP `basename($path, '.sql')`: the last path component, without the
      suffix when it ends with `.sql` and is longer than that. */
  function Basename(path: string): (b: string)
    ensures '/' !in b
  {
    var name := LastComponent(TrimTrailingSlashes(path));
    if |name| > 4 && name[|name| - 4..] == ".sql" then name[..|name| - 4] else name
  }

  /** The regular expression `^[vV]([^_]+)_` matches with its group ending
      before position `k`. */
  predicate VersionMatchAt(b: string, k: int) {
    1 < k < |b| && (b[0] == 'v' || b[0] == 'V') && b[k] == '_'
    && forall i :: 1 <= i < k ==> b[i] != '_'
  }

  ghost predicate VersionMatches(b: string) {
    exists k :: VersionMatchAt(b, k)
  }

  /** The version of a migration named `b`: the text between a leading `v`
      or `V` and the first `_`, when there is such text, else the whole name. */
  function VersionOf(b: string): string {
    if |b| >= 2 && (b[0] == 'v' || b[0] == 'V') && '_' in b[1..] && b[1] != '_'
    then b[1..1 + IndexOf(b[1..], '_')]
    else b
  }

  /** `VersionOf` is the regular expression's group when it matches, and the
      name unchanged otherwise. */
  lemma VersionOfSpec(b: string)
    ensures forall k :: VersionMatchAt(b, k) ==> VersionOf(b) == b[1..k]
    ensures !VersionMatches(b) ==> VersionOf(b) == b
  {
    if |b| >= 2 && (b[0] == 'v' || b[0] == 'V') && '_' in b[1..] && b[1] != '_' {
      var j := IndexOf(b[1..], '_');
      assert b[j + 1] == '_';
      forall i | 1 <= i < j + 1 ensures b[i] != '_' {
        assert b[1..][..j][i - 1] == b[i];
      }
      assert VersionMatchAt(b, j + 1);
      forall k ensures VersionMatchAt(b, k) ==> k == j + 1 {
        if 1 < k < j + 1 {
          assert b[1..][..j][k - 1] == b[k];
        }
      }
    } else {
      forall k ensures !VersionMatchAt(b, k) {
        if 1 < k < |b| {
          assert b[1..][k - 1] == b[k];
        }
      }
    }
  }

  /** The key a migration file gets. */
  function FileVersion(file: string): string {
    VersionOf(Basename(file))
  }

  predicate KeysUnique(entries: seq<Entry>) {
    forall i, j :: 0 <= i < j < |entries| ==> entries[i].0 != entries[j].0
  }

  /** `$array[$key] = $value`: replaces the value in place when the key is
      present, appends the entry otherwise. */
  function Put(entries: seq<Entry>, key: string, value: string): (r: seq<Entry>)
    ensures |r| == |entries| || |r| == |entries| + 1
    ensures (key, value) in r
    ensures forall e :: e in r && e.0 != key ==> e in entries
    ensures forall e :: e in entries && e.0 != key ==> e in r
    ensures KeysUnique(entries) ==> KeysUnique(r)
    ensures forall e :: e in r && e.0 == key ==> e == (key, value) || !KeysUnique(entries)
  {
    if entries == [] then [(key, value)]
    else if entries[0].0 == key then [(key, value)] + entries[1..]
    else
      var rest := Put(entries[1..], key, value);
      assert forall e :: e in entries[1..] ==> e in entries;
      assert KeysUnique(entries) ==> KeysUnique(entries[1..]) && forall e :: e in entries[1..] ==> e.0 != entries[0].0;
      [entries[0]] + rest
  }

  /** The files of one configured directory: every `.sql` file in `dir`, or
      those in `dir/<driver>` when there are none. */
  function SourceFiles(env: Env, dir: string, driver: string): seq<string> {
    var files := env.glob(dir + "/*.sql");
    if files != [] then files else env.glob(dir + "/" + driver + "/*.sql")
  }

  /** The files of all configured directories, in order. */
  function Candidates(env: Env, dirs: seq<string>, driver: string): seq<string> {
    if dirs == [] then []
    else Candidates(env, dirs[..|dirs| - 1], driver) + SourceFiles(env, dirs[|dirs| - 1], driver)
  }

  /** Each file with its version, in order. */
  function Versioned(files: seq<string>): (r: seq<Entry>)
    ensures |r| == |files|
    ensures forall i :: 0 <= i < |files| ==> r[i] == (FileVersion(files[i]), files[i])
  {
    if files == [] then [] else [(FileVersion(files[0]), files[0])] + Versioned(files[1..])
  }

  /** The array the entries fill when assigned one after another. */
  function Collect(entries: seq<Entry>): seq<Entry> {
    if entries == [] then []
    else
      var e := entries[|entries| - 1];
      Put(Collect(entries[..|entries| - 1]), e.0, e.1)
  }

  /** The value of the last entry with key `key`, if there is one. */
  function Latest(entries: seq<Entry>, key: string): (r: Option<string>)
    ensures r.None? <==> forall i :: 0 <= i < |entries| ==> entries[i].0 != key
    ensures r.Some? ==> exists i :: 0 <= i < |entries| && entries[i] == (key, r.value)
                                 && forall j :: i < j < |entries| ==> entries[j].0 != key
  {
    if entries == [] then None
    else if entries[|entries| - 1].0 == key then
      var n := |entries| - 1;
      assert entries[n] == (key, entries[n].1);
      Some(entries[n].1)
    else
      var init := entries[..|entries| - 1];
      var r := Latest(init, key);
      assert forall i :: 0 <= i < |init| ==> init[i] == entries[i];
      assert r.Some? ==> exists i :: 0 <= i < |entries| && entries[i] == (key, r.value)
                                   && forall j :: i < j < |entries| ==> entries[j].0 != key by {
        if r.Some? {
          var i :| 0 <= i < |init| && init[i] == (key, r.value)
                   && forall j :: i < j < |init| ==> init[j].0 != key;
          assert entries[i] == (key, r.value);
          forall j | i < j < |entries| ensures entries[j].0 != key {
            if j < |init| { assert init[j] == entries[j]; }
          }
          assert 0 <= i < |entries| && entries[i] == (key, r.value)
                 && forall j :: i < j < |entries| ==> entries[j].0 != key;
        }
      }
      r
  }

  /** Assigning entries in order keeps each key once, holding the value of
      its last assignment. */
  lemma {:induction false} CollectContents(entries: seq<Entry>)
    ensures KeysUnique(Collect(entries))
    ensures forall e :: e in Collect(entries) <==> Latest(entries, e.0) == Some(e.1)
  {
    if entries != [] {
      var init := entries[..|entries| - 1];
      CollectContents(init);
    }
  }

  /** One more file found: its entry is assigned after the others. */
  lemma CollectSnoc(files: seq<string>, f: string)
    ensures Collect(Versioned(files + [f])) == Put(Collect(Versioned(files)), FileVersion(f), f)
  {
    VersionedSnoc(files, f);
    CollectAppend(Versioned(files), (FileVersion(f), f));
  }

  lemma VersionedSnoc(files: seq<string>, f: string)
    ensures Versioned(files + [f]) == Versioned(files) + [(FileVersion(f), f)]
  {
    var a, b := Versioned(files + [f]), Versioned(files) + [(FileVersion(f), f)];
    assert |a| == |b|;
    forall i | 0 <= i < |a| ensures a[i] == b[i] {
      VersionedAt(files, f, i);
    }
  }

  lemma VersionedAt(files: seq<string>, f: string, i: nat)
    requires i <= |files|
    ensures Versioned(files + [f])[i] == (Versioned(files) + [(FileVersion(f), f)])[i]
  {
    var g := (files + [f])[i];
    assert Versioned(files + [f])[i] == (FileVersion(g), g);
    if i < |files| {
      assert g == files[i];
    }
  }

  lemma CollectAppend(entries: seq<Entry>, e: Entry)
    ensures Collect(entries + [e]) == Put(Collect(entries), e.0, e.1)
  {
    assert (entries + [e])[..|entries|] == entries;
  }

  /** One more file of the directory being searched. */
  lemma DiscoverStep(before: seq<string>, files: seq<string>, j: nat)
    requires j < |files|
    ensures Collect(Versioned(before + files[..j + 1]))
         == Put(Collect(Versioned(before + files[..j])), VersionOf(Basename(files[j])), files[j])
  {
    assert before + files[..j + 1] == before + files[..j] + [files[j]];
    CollectSnoc(before + files[..j], files[j]);
  }

  /** One more directory searched: its files follow those found so far. */
  lemma CandidatesSnoc(env: Env, dirs: seq<string>, i: nat, driver: string)
    requires i < |dirs|
    ensures Candidates(env, dirs[..i + 1], driver) == Candidates(env, dirs[..i], driver) + SourceFiles(env, dirs[i], driver)
  {
    assert dirs[..i + 1][..i] == dirs[..i];
  }

  /** The comparison `uksort` uses: `version_compare` on the keys. */
  function KeyLe(versionLe: (string, string) -> bool): (Entry, Entry) -> bool {
    (a: Entry, b: Entry) => versionLe(a.0, b.0)
  }

  /** `fetchMigrations`: nothing when no directory is configured; otherwise
      the collected array sorted by version. */
  function Discover(env: Env, dirs: seq<string>, driver: string): seq<Entry> {
    if dirs == [] then []
    else SortBy(Collect(Versioned(Candidates(env, dirs, driver))), KeyLe(env.versionLe))
  }

  /** Two equal elements at distinct positions count twice. */
  lemma TwoCopies<T>(t: seq<T>, i: int, j: int)
    requires 0 <= i < j < |t| && t[i] == t[j]
    ensures multiset(t)[t[i]] >= 2
  {
    assert t == t[..i] + [t[i]] + t[i + 1..j] + [t[j]] + t[j + 1..];
  }

  /** With unique keys, every entry occurs once. */
  lemma OnceIn(s: seq<Entry>, a: int)
    requires KeysUnique(s) && 0 <= a < |s|
    ensures multiset(s)[s[a]] == 1
  {
    assert s == s[..a] + [s[a]] + s[a + 1..];
    forall c | 0 <= c < |s| && c != a ensures s[c] != s[a] {
      if c < a { assert s[c].0 != s[a].0; } else { assert s[a].0 != s[c].0; }
    }
    assert s[a] !in s[..a] by {
      forall c | 0 <= c < a ensures s[..a][c] != s[a] { assert s[..a][c] == s[c]; }
    }
    var tail := s[a + 1..];
    assert s[a] !in tail by {
      forall c | 0 <= c < |tail| ensures tail[c] != s[a] { assert tail[c] == s[a + 1 + c]; }
    }
  }

  /** A permutation of entries with unique keys has unique keys. */
  lemma PermutationKeysUnique(s: seq<Entry>, t: seq<Entry>)
    requires KeysUnique(s) && multiset(s) == multiset(t)
    ensures KeysUnique(t)
  {
    forall i, j | 0 <= i < j < |t| ensures t[i].0 != t[j].0 {
      assert t[i] in multiset(s) && t[j] in multiset(s);
      var a :| 0 <= a < |s| && s[a] == t[i];
      var b :| 0 <= b < |s| && s[b] == t[j];
      if t[i] == t[j] {
        TwoCopies(t, i, j);
        OnceIn(s, a);
      } else if a < b {
        assert s[a].0 != s[b].0;
      } else if b < a {
        assert s[b].0 != s[a].0;
      }
    }
  }

  /** What discovery yields: each version once, holding the last file found
      with that version, ordered by version when `version_compare` orders. */
  lemma DiscoverContents(env: Env, dirs: seq<string>, driver: string)
    ensures KeysUnique(Discover(env, dirs, driver))
    ensures dirs != [] ==> forall e :: (e in Discover(env, dirs, driver)
              <==> Latest(Versioned(Candidates(env, dirs, driver)), e.0) == Some(e.1))
    ensures dirs == [] ==> Discover(env, dirs, driver) == []
    ensures Total(KeyLe(env.versionLe)) && Transitive(KeyLe(env.versionLe))
            ==> Sorted(Discover(env, dirs, driver), KeyLe(env.versionLe))
  {
    if dirs != [] {
      var c := Collect(Versioned(Candidates(env, dirs, driver)));
      CollectContents(Versioned(Candidates(env, dirs, driver)));
      PermutationKeysUnique(c, Discover(env, dirs, driver));
      forall e ensures e in Discover(env, dirs, driver) <==> e in c {
        assert e in Discover(env, dirs, driver) <==> e in multiset(Discover(env, dirs, driver));
        assert e in c <==> e in multiset(c);
      }
      if Total(KeyLe(env.versionLe)) && Transitive(KeyLe(env.versionLe)) {
        SortBySorted(c, KeyLe(env.versionLe));
      }
    }
  }
}
