/** `FixtureService`: caches the fixture list and the SQL migrations once
    per exercise, then reloads the database before each feature or
    scenario, from a backup when backups are on and one exists for the
    current fingerprint, else by running migrations and fixtures (and
    making the backup). */
module Fixtures {
  import opened Wrappers
  import opened Strings
  import opened Sorting
  import opened World
  import opened Migrations
  import opened Fingerprint
  import opened Resolution
  import opened PlatformListeners
  import opened FixtureRuns
  import opened Registry

  /** The configured migration directories as a PHP list: keyed by position. */
  function Indexed(dirs: seq<string>): (entries: seq<Entry>)
    ensures |entries| == |dirs|
    ensures forall i :: 0 <= i < |dirs| ==> entries[i] == (NatToString(i), dirs[i])
    ensures Values(entries) == dirs
  {
    var entries := seq(|dirs|, i requires 0 <= i < |dirs| => (NatToString(i), dirs[i]));
    assert Values(entries) == dirs;
    entries
  }

  /** The reference repository the executor shares fixture references
      through; it is saved to and loaded from the backup's side file. */
  class ReferenceRepository {
    constructor()
    {
    }
  }

  /** The message of the TypeError `SchemaTool` throws for a manager that is
      not an ORM entity manager (or was never fetched). */
  const NotAnOrmManager := "SchemaTool::__construct(): Argument #1 ($em) must be of type Doctrine\\ORM\\EntityManagerInterface"

  /** The message of the TypeError the reference repository's constructor
      throws before a manager was fetched. */
  const NoObjectManager := "ProxyReferenceRepository::__construct(): Argument #1 ($manager) must be of type ObjectManager, null given"

  /** The operations the service offers to the test runner's hooks. */
  datatype Call = Cache | Reload | Flush

  class FixtureService {
    /** the kernel: its container, bundles and the files it sees */
    const env: Env
    const autoload: bool
    const directories: seq<string>
    const useBackup: bool
    /** set only when backups are on */
    const backupService: BackupService?
    /** the configured class names, then the loaded fixtures */
    var fixtures: FixtureList
    /** the configured directories, then the version-to-file map */
    var migrations: seq<Entry>
    /** the classes the fixture loader holds, in the order they were added */
    var loader: seq<string>
    /** whether `init` has fetched the object manager */
    var managerBound: bool
    var referenceRepository: ReferenceRepository?
    /** the operations made on the service so far, oldest first */
    ghost var calls: seq<Call>

    predicate Valid() {
      useBackup ==> backupService != null
    }

    /** The service remembers its configuration; with backups on it hands
        the kernel's cache directory to the backup service. */
    constructor(env: Env, autoload: bool, fixtureNames: seq<string>, directories: seq<string>,
                migrationDirs: seq<string>, useBackup: bool, backupService: BackupService)
      modifies backupService
      ensures Valid()
      ensures this.env == env && this.autoload == autoload && this.directories == directories
      ensures this.useBackup == useBackup
      ensures fixtures == ClassNames(fixtureNames) && migrations == Indexed(migrationDirs)
      ensures loader == [] && !managerBound && referenceRepository == null && calls == []
      ensures useBackup ==> this.backupService == backupService
                            && backupService.cacheDir == Some(env.cacheDir)
                            && backupService.platformBackupMap == old(backupService.platformBackupMap)
      ensures !useBackup ==> this.backupService == null && unchanged(backupService)
    {
      this.env := env;
      this.autoload := autoload;
      this.directories := directories;
      this.useBackup := useBackup;
      fixtures := ClassNames(fixtureNames);
      migrations := Indexed(migrationDirs);
      loader := [];
      managerBound := false;
      referenceRepository := null;
      calls := [];
      this.backupService := if useBackup then backupService else null;
      new;
      if useBackup {
        backupService.SetCacheDir(env.cacheDir);
      }
    }

    /** `init`: fetches the manager and subscribes a new platform listener
        to its events. */
    method Init(host: Host)
      modifies this`managerBound, host`log, host`subscribers
      ensures managerBound
      ensures host.log == old(host.log) + [Subscribe]
      ensures host.subscribers == old(host.subscribers) + 1
    {
      managerBound := true;
      host.Record(Subscribe);
      host.AddSubscriber();
    }

    /** `fetchMigrations`: every `.sql` file of each configured directory,
        or of its per-driver sub-directory, keyed by its version with later
        files overriding, then sorted by version. */
    method FetchMigrations() returns (r: seq<Entry>)
      requires managerBound
      ensures r == Discover(env, Values(migrations), env.connection.platform.name)
    {
      if migrations == [] {
        return [];
      }
      var driver := env.connection.platform.name;
      var dirs := Values(migrations);
      var found: seq<Entry> := [];
      var i := 0;
      while i < |dirs|
        invariant 0 <= i <= |dirs|
        invariant found == Collect(Versioned(Candidates(env, dirs[..i], driver)))
      {
        var files := env.glob(dirs[i] + "/*.sql");
        if files == [] {
          files := env.glob(dirs[i] + "/" + driver + "/*.sql");
        }
        assert files == SourceFiles(env, dirs[i], driver);
        found := AddVersions(found, Candidates(env, dirs[..i], driver), files);
        CandidatesSnoc(env, dirs, i, driver);
        i := i + 1;
      }
      assert dirs[..i] == dirs;
      r := SortBy(found, KeyLe(env.versionLe));
    }

    /** The files of one directory keyed by their versions, each file
        replacing an earlier one of the same version. */
    static method AddVersions(found: seq<Entry>, ghost before: seq<string>, files: seq<string>) returns (r: seq<Entry>)
      requires found == Collect(Versioned(before))
      ensures r == Collect(Versioned(before + files))
    {
      r := found;
      assert before + files[..0] == before;
      var j := 0;
      while j < |files|
        invariant 0 <= j <= |files|
        invariant r == Collect(Versioned(before + files[..j]))
      {
        var version := Basename(files[j]);
        version := VersionOf(version);
        DiscoverStep(before, files, j);
        r := Put(r, version, files[j]);
        j := j + 1;
      }
      assert files[..j] == files;
    }

    /** `loadFixtureClass`: instantiating the class declares it; a class the
        loader holds already is dropped, any other is added and then its
        dependencies are loaded one after another. */
    method LoadFixtureClass(host: Host, name: string) returns (r: Outcome<Error>)
      modifies this`loader, host`declared
      ensures Step(Loading(loader, host.declared), r) == LoadClass(env, Loading(old(loader), old(host.declared)), name)
      decreases Remaining(env, loader), 1
    {
      var c := Canonical(name);
      if c !in env.classes {
        MissingClassThrows(env, Loading(loader, host.declared), name);
        return Fail(ClassNotFound(name));
      }
      if c in loader {
        LoadedClassAddsNothing(env, Loading(loader, host.declared), name);
        host.Declare({c});
        return Pass;
      }
      NewClassAppends(env, Loading(loader, host.declared), name);
      RemainingAppend(env, loader, c);
      ghost var bound := Remaining(env, loader);
      host.Declare({c});
      loader := loader + [c];
      r := LoadDependencies(host, env.classes[c].dependencies, bound);
    }

    /** The dependencies of a class just added, one after the other, until
        one of them cannot be loaded. */
    method LoadDependencies(host: Host, deps: seq<string>, ghost bound: nat) returns (r: Outcome<Error>)
      requires Remaining(env, loader) < bound
      modifies this`loader, host`declared
      ensures Step(Loading(loader, host.declared), r) == LoadDeps(env, Loading(old(loader), old(host.declared)), deps)
      decreases bound, 0
    {
      ghost var start := Loading(loader, host.declared);
      assert deps[0..] == deps;
      var i := 0;
      while i < |deps|
        invariant 0 <= i <= |deps|
        invariant Extends(start, Loading(loader, host.declared))
        invariant LoadDeps(env, start, deps) == LoadDeps(env, Loading(loader, host.declared), deps[i..])
      {
        RemainingShrinks(env, start.loader, loader);
        ghost var here := Loading(loader, host.declared);
        LoadDepsStep(env, here, deps, i);
        r := LoadFixtureClass(host, deps[i]);
        if r.Fail? {
          return;
        }
        ExtendsTransitive(start, here, Loading(loader, host.declared));
        i := i + 1;
      }
      return Pass;
    }

    /** `fetchFixturesFromDirectories`: the loader loads each directory in
        turn; the first that is not a directory throws. */
    method FetchFixturesFromDirectories(host: Host, dirs: seq<string>) returns (r: Outcome<Error>)
      modifies this`loader, host`declared
      ensures Step(Loading(loader, host.declared), r) == LoadDirectories(env, Loading(old(loader), old(host.declared)), dirs)
    {
      ghost var start := Loading(loader, host.declared);
      assert dirs[0..] == dirs;
      var i := 0;
      while i < |dirs|
        invariant 0 <= i <= |dirs|
        invariant LoadDirectories(env, start, dirs) == LoadDirectories(env, Loading(loader, host.declared), dirs[i..])
      {
        var step := LoadDirectory(env, Loading(loader, host.declared), dirs[i]);
        LoadDirectoriesStep(env, Loading(loader, host.declared), dirs, i);
        if step.outcome.Fail? {
          return step.outcome;
        }
        ghost var declared := host.declared;
        loader := step.st.loader;
        host.Declare(step.st.declared - host.declared);
        assert host.declared == declared + (step.st.declared - declared) == step.st.declared;
        assert Loading(loader, host.declared) == step.st;
        i := i + 1;
      }
      return Pass;
    }

    /** `fetchFixturesFromClasses`: each configured name gets a leading `\`
        and is loaded unless its class is declared already. */
    method FetchFixturesFromClasses(host: Host, names: seq<string>) returns (r: Outcome<Error>)
      modifies this`loader, host`declared
      ensures Step(Loading(loader, host.declared), r) == LoadClasses(env, Loading(old(loader), old(host.declared)), names)
    {
      ghost var start := Loading(loader, host.declared);
      var i := 0;
      while i < |names|
        invariant 0 <= i <= |names|
        invariant LoadClasses(env, start, names) == LoadClasses(env, Loading(loader, host.declared), names[i..])
      {
        LoadClassesStep(env, Loading(loader, host.declared), names, i);
        r := LoadConfiguredClass(host, names[i]);
        if r.Fail? {
          return;
        }
        i := i + 1;
      }
      return Pass;
    }

    /** One configured name: a leading `\` added, then the class loaded
        unless it is declared already. */
    method LoadConfiguredClass(host: Host, name: string) returns (r: Outcome<Error>)
      modifies this`loader, host`declared
      ensures Step(Loading(loader, host.declared), r) == LoadConfigured(env, Loading(old(loader), old(host.declared)), name)
    {
      var className := name;
      if |className| == 0 || className[0] != '\\' {
        className := "\\" + className;
      }
      assert className == Qualify(name);
      r := Pass;
      if Canonical(className) !in host.declared {
        r := LoadFixtureClass(host, className);
      }
    }

    /** `fetchFixtures`: a new loader, filled from the bundle directories
        when autoloading, then the configured directories, then the
        configured classes. */
    method FetchFixtures(host: Host) returns (r: Outcome<Error>)
      modifies this`loader, host`declared
      ensures Step(Loading(loader, host.declared), r)
           == ResolveFixtures(env, old(host.declared), autoload, directories, fixtures)
    {
      loader := [];
      var bundleDirectories := if autoload then BundleDirectories(env, env.bundlePaths) else [];
      ghost var bundles := LoadDirectories(env, Loading([], host.declared), AutoloadDirectories(env, autoload));
      ghost var names := if fixtures.ClassNames? then fixtures.names else [];
      ghost var resolved := Resolve(env, host.declared, autoload, directories, names);
      r := FetchFixturesFromDirectories(host, bundleDirectories);
      if r.Fail? {
        return;
      }
      ghost var dirs := LoadDirectories(env, bundles.st, directories);
      r := FetchFixturesFromDirectories(host, directories);
      if r.Fail? {
        assert resolved == dirs;
        return;
      }
      assert resolved == LoadClasses(env, dirs.st, names);
      match fixtures
      case ClassNames(names) =>
        r := FetchFixturesFromClasses(host, names);
      case Instances(classes) =>
        if classes != [] {
          r := Fail(TypeError("substr(): Argument #1 ($string) must be of type string, object given"));
        }
    }

    /** `getReferenceRepository`: created on first use over the manager,
        then the same instance until `flush` drops it. */
    method GetReferenceRepository() returns (r: Result<ReferenceRepository, Error>)
      modifies this`referenceRepository
      ensures old(referenceRepository) != null ==>
                r == Success(old(referenceRepository)) && referenceRepository == old(referenceRepository)
      ensures old(referenceRepository) == null && managerBound ==>
                r.Success? && fresh(r.value) && referenceRepository == r.value
      ensures old(referenceRepository) == null && !managerBound ==>
                r == Failure(TypeError(NoObjectManager)) && referenceRepository == null
    {
      if referenceRepository == null {
        if !managerBound {
          return Failure(TypeError(NoObjectManager));
        }
        referenceRepository := new ReferenceRepository();
      }
      return Success(referenceRepository);
    }

    /** `dispatchEvent`: the event goes to every subscribed platform
        listener; a manager that is not an ORM entity manager is refused. */
    method DispatchEvent(host: Host, e: TruncateEvent) returns (r: Outcome<Error>)
      modifies host`log
      ensures !managerBound || !env.ormManager ==> r == Fail(TypeError(NotAnEntityManager)) && host.log == old(host.log)
      ensures managerBound && env.ormManager ==>
                r == Pass && host.log == old(host.log) + DispatchRun(e, host.subscribers, env.connection.platform)
    {
      if !managerBound || !env.ormManager {
        return Fail(TypeError(NotAnEntityManager));
      }
      var platform := env.connection.platform;
      ghost var effect := Effect(e, true, platform).value;
      host.Record(Dispatch(EventName(e)));
      var k := 0;
      while k < host.subscribers
        invariant 0 <= k <= host.subscribers
        invariant host.log == old(host.log) + [Dispatch(EventName(e))] + Repeat(effect, k)
      {
        var handled := Handle(e, true, platform, host);
        RepeatSnoc(effect, k);
        k := k + 1;
      }
      return Pass;
    }

    /** `runMigrations`: with migrations, the Doctrine migrations first when
        a namespace is configured, then every line of every file in order;
        a file that cannot be read throws. */
    method RunMigrations(host: Host) returns (r: Outcome<Error>)
      modifies host`log
      ensures host.log == old(host.log) + MigrationRun(env, migrations).0
      ensures r == MigrationRun(env, migrations).1
    {
      if migrations == [] {
        return Pass;
      }
      if env.migrationsNamespace.None? {
        return Fail(InvalidArgument(MissingNamespace));
      }
      ghost var doctrine: seq<Action> := if MigrateConfigured(env) then [Migrate] else [];
      if Truthy(env.migrationsNamespace.value) {
        host.Record(Migrate);
      }
      assert host.log == old(host.log) + doctrine;
      r := ExecuteFiles(host, migrations);
      TraceSplit(old(host.log), doctrine, FileRuns(env, migrations).0);
    }

    /** The migration files in order, each trimmed and executed line by
        line; a file that cannot be read throws. */
    method ExecuteFiles(host: Host, files: seq<Entry>) returns (r: Outcome<Error>)
      modifies host`log
      ensures host.log == old(host.log) + FileRuns(env, files).0
      ensures r == FileRuns(env, files).1
    {
      assert files[0..] == files;
      var i := 0;
      while i < |files|
        invariant 0 <= i <= |files|
        invariant FileRuns(env, files[i..]).1 == FileRuns(env, files).1
        invariant old(host.log) + FileRuns(env, files).0 == host.log + FileRuns(env, files[i..]).0
      {
        var file := files[i].1;
        FileRunsStep(env, files, i);
        if file !in env.contents {
          return Fail(TypeError(UnreadableFile));
        }
        ghost var before := host.log;
        var lines := Explode(Trim(env.contents[file]), '\n');
        ExecuteStatements(host, lines);
        ghost var rest := FileRuns(env, files[i + 1..]).0;
        TraceSplit(before, Queries(lines), rest);
        i := i + 1;
      }
      assert files[i..] == [];
      return Pass;
    }

    /** The lines of one migration file executed in order. */
    method ExecuteStatements(host: Host, lines: seq<string>)
      modifies host`log
      ensures host.log == old(host.log) + Queries(lines)
    {
      var j := 0;
      while j < |lines|
        invariant 0 <= j <= |lines|
        invariant host.log == old(host.log) + Queries(lines[..j])
      {
        host.Record(Query(lines[j]));
        QueriesSnoc(lines, j);
        j := j + 1;
      }
      assert lines[..j] == lines;
    }

    /** `loadFixtures`: `preTruncate`, the purge when backups are off, the
        migrations, the fixtures, `postTruncate`. */
    method LoadFixtures(host: Host) returns (r: Outcome<Error>)
      modifies host`log, this`referenceRepository
      ensures host.log == old(host.log) + LoadRun(env, useBackup, managerBound, host.subscribers, migrations, fixtures).0
      ensures r == LoadRun(env, useBackup, managerBound, host.subscribers, migrations, fixtures).1
      ensures managerBound && env.ormManager ==>
                referenceRepository != null
                && (old(referenceRepository) != null ==> referenceRepository == old(referenceRepository))
      ensures !managerBound || !env.ormManager ==> referenceRepository == old(referenceRepository)
      ensures r.Pass? ==> referenceRepository != null
    {
      ghost var start := host.log;
      r := DispatchEvent(host, PreTruncate);
      if r.Fail? {
        return;
      }
      var repository := GetReferenceRepository();
      if !useBackup {
        host.Record(Purge);
      }
      ghost var front := RunFront(env, useBackup, managerBound, host.subscribers);
      TraceSplit(start, DispatchRun(PreTruncate, host.subscribers, env.connection.platform), if useBackup then [] else [Purge]);
      assert host.log == start + front;
      r := RunMigrations(host);
      ghost var mig := MigrationRun(env, migrations).0;
      TraceSplit(start, front, mig);
      if r.Fail? {
        return;
      }
      var executed := Executed(fixtures);
      if executed.Failure? {
        return Fail(executed.error);
      }
      host.Record(Execute(executed.value));
      r := DispatchEvent(host, PostTruncate);
      ghost var post := DispatchRun(PostTruncate, host.subscribers, env.connection.platform);
      TraceSplit(start, front + mig, [Execute(executed.value)]);
      TraceSplit(start, front + mig + [Execute(executed.value)], post);
    }

    /** `dropDatabase`. */
    method DropDatabase(host: Host) returns (r: Outcome<Error>)
      modifies host`log
      ensures !managerBound || !env.ormManager ==> r == Fail(TypeError(NotAnOrmManager)) && host.log == old(host.log)
      ensures managerBound && env.ormManager ==> r == Pass && host.log == old(host.log) + [Action.DropDatabase]
    {
      if !managerBound || !env.ormManager {
        return Fail(TypeError(NotAnOrmManager));
      }
      host.Record(Action.DropDatabase);
      return Pass;
    }

    /** `createDatabase`: the manager's metadata is read first, then the
        schema tool creates the schema. */
    method CreateDatabase(host: Host) returns (r: Outcome<Error>)
      modifies host`log
      ensures !managerBound ==> r == Fail(NullReference("entityManager")) && host.log == old(host.log)
      ensures managerBound && !env.ormManager ==> r == Fail(TypeError(NotAnOrmManager)) && host.log == old(host.log)
      ensures managerBound && env.ormManager ==> r == Pass && host.log == old(host.log) + [CreateSchema]
    {
      if !managerBound {
        return Fail(NullReference("entityManager"));
      }
      if !env.ormManager {
        return Fail(TypeError(NotAnOrmManager));
      }
      host.Record(CreateSchema);
      return Pass;
    }

    /** `cacheFixtures`: `init`, the migration files, the fixtures; with
        backups on and no backup for the new fingerprint the database is
        dropped. */
    method CacheFixtures(host: Host) returns (r: Outcome<Error>)
      requires Valid()
      modifies this`managerBound, this`migrations, this`fixtures, this`loader, this`calls
      modifies host`log, host`subscribers, host`declared
      ensures calls == old(calls) + [Call.Cache]
      ensures managerBound && host.subscribers == old(host.subscribers) + 1
      ensures migrations == Discover(env, Values(old(migrations)), env.connection.platform.name)
      ensures var s := ResolveFixtures(env, old(host.declared), autoload, directories, old(fixtures));
        && Loading(loader, host.declared) == s.st
        && (s.outcome.Fail? ==> r == s.outcome && fixtures == old(fixtures) && host.log == old(host.log) + [Subscribe])
        && (s.outcome.Pass? ==> fixtures == Instances(loader))
      ensures ResolveFixtures(env, old(host.declared), autoload, directories, old(fixtures)).outcome.Pass? ==>
        if Stale(host) then
          if env.ormManager then r == Pass && host.log == old(host.log) + [Subscribe, Action.DropDatabase]
          else r == Fail(TypeError(NotAnOrmManager)) && host.log == old(host.log) + [Subscribe]
        else r == Pass && host.log == old(host.log) + [Subscribe]
    {
      CacheMigrations(host);
      r := CacheLoadedFixtures(host);
      TraceSplit(old(host.log), [Subscribe], [Action.DropDatabase]);
    }

    /** The start of `cacheFixtures`: `init`, then the migration files. */
    method CacheMigrations(host: Host)
      modifies this`managerBound, this`migrations, this`calls, host`log, host`subscribers
      ensures calls == old(calls) + [Call.Cache]
      ensures managerBound && host.subscribers == old(host.subscribers) + 1
      ensures host.log == old(host.log) + [Subscribe]
      ensures migrations == Discover(env, Values(old(migrations)), env.connection.platform.name)
    {
      calls := calls + [Call.Cache];
      Init(host);
      migrations := FetchMigrations();
    }

    /** The rest of `cacheFixtures`: the fixtures are fetched and kept, and
        the database is dropped when its backup is missing. */
    method CacheLoadedFixtures(host: Host) returns (r: Outcome<Error>)
      requires managerBound
      modifies this`fixtures, this`loader, host`log, host`declared
      ensures var s := ResolveFixtures(env, old(host.declared), autoload, directories, old(fixtures));
        && Loading(loader, host.declared) == s.st
        && (s.outcome.Fail? ==> r == s.outcome && fixtures == old(fixtures) && host.log == old(host.log))
        && (s.outcome.Pass? ==> fixtures == Instances(loader))
        && (s.outcome.Pass? && Stale(host) && env.ormManager ==> r == Pass && host.log == old(host.log) + [Action.DropDatabase])
        && (s.outcome.Pass? && Stale(host) && !env.ormManager ==> r == Fail(TypeError(NotAnOrmManager)) && host.log == old(host.log))
        && (s.outcome.Pass? && !Stale(host) ==> r == Pass && host.log == old(host.log))
    {
      r := FetchFixtures(host);
      if r.Fail? {
        return;
      }
      fixtures := Instances(loader);
      r := DropStale(host);
    }

    /** With backups on, no backup for the fingerprint of the loaded
        fixtures. */
    predicate Stale(host: Host)
      reads this`fixtures, this`migrations, backupService, host
    {
      useBackup && backupService != null && fixtures.Instances?
      && !backupService.HasBackup(Hash(env, migrations, fixtures).value, host)
    }

    /** The end of `cacheFixtures`: the database is dropped when its backup
        is missing. */
    method DropStale(host: Host) returns (r: Outcome<Error>)
      requires managerBound && fixtures.Instances?
      modifies host`log
      ensures Stale(host) && env.ormManager ==> r == Pass && host.log == old(host.log) + [Action.DropDatabase]
      ensures Stale(host) && !env.ormManager ==> r == Fail(TypeError(NotAnOrmManager)) && host.log == old(host.log)
      ensures !Stale(host) ==> r == Pass && host.log == old(host.log)
    {
      r := Pass;
      if useBackup && backupService != null {
        var hash := Hash(env, migrations, fixtures).value;
        if !backupService.HasBackup(hash, host) {
          r := DropDatabase(host);
        }
      }
    }

    /** `reloadFixtures`: without backups the fixtures are loaded; with
        them the database is restored from the backup for the current
        fingerprint when there is one, else it is rebuilt (dropped and
        recreated first when there are no migration files), loaded and
        dumped, and the shared references are saved beside the dump. */
    method ReloadFixtures(host: Host) returns (r: Outcome<Error>)
      requires Valid()
      modifies this`referenceRepository, this`calls, host
      ensures calls == old(calls) + [Call.Reload]
      ensures host.declared == old(host.declared) && host.subscribers == old(host.subscribers)
      ensures !useBackup ==>
        var run := LoadRun(env, false, managerBound, old(host.subscribers), migrations, fixtures);
        host.log == old(host.log) + run.0 && r == run.1 && host.files == old(host.files)
      ensures useBackup && Hash(env, migrations, fixtures).Failure? ==>
        r == Fail(Hash(env, migrations, fixtures).error) && host.log == old(host.log) && host.files == old(host.files)
      ensures useBackup && Hash(env, migrations, fixtures).Success? ==>
        var hash := Hash(env, migrations, fixtures).value;
        if old(backupService.HasBackup(hash, host)) then host.files == old(host.files)
        else r.Pass? ==> host.files == old(host.files) + {backupService.GetBackupFile(hash)}
      ensures useBackup && Hash(env, migrations, fixtures).Success? ==>
        var hash := Hash(env, migrations, fixtures).value;
        if old(backupService.HasBackup(hash, host))
        then Restored(hash, old(backupService.RestoreCommand(env.connection, hash)), old(host.log), host.log, r)
        else Rebuilt(hash, backupService.DumpCommand(env.connection, hash), old(host.subscribers), old(host.log), host, r)
    {
      if !useBackup {
        ghost var subscribers := host.subscribers;
        r := LoadFixtures(host);
        assert host.subscribers == subscribers;
        calls := calls + [Call.Reload];
      } else {
        r := ReloadWithBackup(host);
      }
    }

    /** `reloadFixtures` with backups on: the fingerprint of the loaded
        fixtures, then a restore or a rebuild for it. */
    method ReloadWithBackup(host: Host) returns (r: Outcome<Error>)
      requires Valid() && useBackup
      modifies this`referenceRepository, this`calls, host
      ensures calls == old(calls) + [Call.Reload]
      ensures host.declared == old(host.declared) && host.subscribers == old(host.subscribers)
      ensures Hash(env, migrations, fixtures).Failure? ==>
        r == Fail(Hash(env, migrations, fixtures).error) && host.log == old(host.log) && host.files == old(host.files)
      ensures Hash(env, migrations, fixtures).Success? ==>
        var hash := Hash(env, migrations, fixtures).value;
        if old(backupService.HasBackup(hash, host)) then host.files == old(host.files)
        else r.Pass? ==> host.files == old(host.files) + {backupService.GetBackupFile(hash)}
      ensures Hash(env, migrations, fixtures).Success? ==>
        var hash := Hash(env, migrations, fixtures).value;
        if old(backupService.HasBackup(hash, host))
        then Restored(hash, old(backupService.RestoreCommand(env.connection, hash)), old(host.log), host.log, r)
        else Rebuilt(hash, backupService.DumpCommand(env.connection, hash), old(host.subscribers), old(host.log), host, r)
    {
      var hashed := Hash(env, migrations, fixtures);
      if hashed.Failure? {
        calls := calls + [Call.Reload];
        r := Fail(hashed.error);
      } else {
        r := RestoreOrRebuild(host, hashed.value);
      }
    }

    /** With backups on and the hash computed: restore from the backup when
        it exists, rebuild it otherwise. */
    method RestoreOrRebuild(host: Host, hash: string) returns (r: Outcome<Error>)
      requires Valid() && useBackup
      modifies this`referenceRepository, this`calls, host
      ensures calls == old(calls) + [Call.Reload]
      ensures host.declared == old(host.declared) && host.subscribers == old(host.subscribers)
      ensures if old(backupService.HasBackup(hash, host)) then host.files == old(host.files)
              else r.Pass? ==> host.files == old(host.files) + {backupService.GetBackupFile(hash)}
      ensures if old(backupService.HasBackup(hash, host))
              then Restored(hash, old(backupService.RestoreCommand(env.connection, hash)), old(host.log), host.log, r)
              else Rebuilt(hash, backupService.DumpCommand(env.connection, hash), old(host.subscribers), old(host.log), host, r)
    {
      if backupService.HasBackup(hash, host) {
        r := RestoreFixtures(host, hash);
      } else {
        r := RebuildFixtures(host, hash);
      }
    }

    /** After a restore from the backup for `hash`: without a manager it
        throws before anything happens; otherwise the restore command runs,
        and when it succeeds it is `command`, the one the backup service
        builds for `hash`, the references are loaded from beside the dump
        and nothing else is done (no fixture is executed). */
    ghost predicate Restored(hash: string, command: Result<string, Error>, before: seq<Action>, after: seq<Action>, r: Outcome<Error>)
      reads this`managerBound, this`referenceRepository, backupService
      requires backupService != null
    {
      && (!managerBound ==> r == Fail(NullReference("entityManager")) && after == before)
      && before <= after && |after| <= |before| + 2
      && (r.Pass? ==> |after| == |before| + 2
                      && command.Success? && after[|before|] == Run(command.value)
                      && after[|after| - 1] == LoadReferences(backupService.GetBackupFile(hash))
                      && referenceRepository != null)
    }

    /** After a rebuild for `hash`: when it succeeds, the database was
        dropped and recreated if there are no migration files, the fixtures
        were loaded, the dump command `command` the backup service builds for
        `hash` ran, the references were saved beside
        the dump, and the backup now exists. */
    ghost predicate Rebuilt(hash: string, command: Result<string, Error>, subscribers: nat, before: seq<Action>, host: Host, r: Outcome<Error>)
      reads this`migrations, this`managerBound, this`fixtures, this`referenceRepository, backupService, host
      requires backupService != null
    {
      var prep := if migrations == [] then [Action.DropDatabase, CreateSchema] else [];
      var run := LoadRun(env, true, managerBound, subscribers, migrations, fixtures);
      && before <= host.log
      && (r.Pass? ==> && run.1.Pass? && command.Success?
                      && host.log == before + prep + run.0
                                     + [Run(command.value), SaveReferences(backupService.GetBackupFile(hash))]
                      && backupService.HasBackup(hash, host) && referenceRepository != null)
    }

    /** `reloadFixtures` when the backup exists: `restoreBackup`, then the
        references loaded from `getBackupFile`. */
    method RestoreFixtures(host: Host, hash: string) returns (r: Outcome<Error>)
      requires Valid() && useBackup
      modifies this`referenceRepository, this`calls, host
      ensures calls == old(calls) + [Call.Reload]
      ensures host.files == old(host.files)
      ensures host.declared == old(host.declared) && host.subscribers == old(host.subscribers)
      ensures Restored(hash, old(backupService.RestoreCommand(env.connection, hash)), old(host.log), host.log, r)
    {
      if !managerBound {
        calls := calls + [Call.Reload];
        return Fail(NullReference("entityManager"));
      }
      r := backupService.RestoreBackup(env.connection, hash, env, host);
      if r.Pass? {
        LoadSavedReferences(host, backupService.GetBackupFile(hash));
      }
      calls := calls + [Call.Reload];
    }

    /** `getReferenceRepository()->load($file)`. */
    method LoadSavedReferences(host: Host, file: string)
      requires managerBound
      modifies this`referenceRepository, host`log
      ensures referenceRepository != null
      ensures host.log == old(host.log) + [LoadReferences(file)]
    {
      var repository := GetReferenceRepository();
      host.Record(LoadReferences(file));
    }

    /** `reloadFixtures` without a backup: the database prepared, the
        fixtures loaded, `createBackup`, then the references saved to
        `getBackupFile`. */
    method RebuildFixtures(host: Host, hash: string) returns (r: Outcome<Error>)
      requires Valid() && useBackup
      modifies this`referenceRepository, this`calls, host
      ensures calls == old(calls) + [Call.Reload]
      ensures host.declared == old(host.declared) && host.subscribers == old(host.subscribers)
      ensures r.Pass? ==> host.files == old(host.files) + {backupService.GetBackupFile(hash)}
      ensures Rebuilt(hash, backupService.DumpCommand(env.connection, hash), old(host.subscribers), old(host.log), host, r)
    {
      calls := calls + [Call.Reload];
      ghost var subscribers := host.subscribers;
      ghost var prep: seq<Action> := if migrations == [] then [Action.DropDatabase, CreateSchema] else [];
      ghost var run := LoadRun(env, true, managerBound, subscribers, migrations, fixtures);
      r := PrepareAndLoad(host);
      if r.Pass? {
        ghost var loaded := host.log;
        assert loaded == old(host.log) + prep + run.0 && run.1.Pass?;
        r := SaveBackup(host, hash);
        TracePrefix(old(host.log), loaded, host.log);
      }
    }

    /** The database prepared, then the fixtures loaded into it. */
    method PrepareAndLoad(host: Host) returns (r: Outcome<Error>)
      requires useBackup
      modifies this`referenceRepository, host`log
      ensures old(host.log) <= host.log
      ensures r.Pass? ==>
        && host.log == old(host.log) + (if migrations == [] then [Action.DropDatabase, CreateSchema] else [])
                       + LoadRun(env, true, managerBound, host.subscribers, migrations, fixtures).0
        && LoadRun(env, true, managerBound, host.subscribers, migrations, fixtures).1.Pass?
        && referenceRepository != null
    {
      ghost var prep: seq<Action> := if migrations == [] then [Action.DropDatabase, CreateSchema] else [];
      ghost var run := LoadRun(env, true, managerBound, host.subscribers, migrations, fixtures);
      r := PrepareDatabase(host);
      if r.Fail? {
        return;
      }
      assert host.log == old(host.log) + prep;
      r := LoadFixtures(host);
      TraceSplit(old(host.log), prep, run.0);
    }

    /** Without migration files the database is dropped and created again
        before the fixtures are loaded. */
    method PrepareDatabase(host: Host) returns (r: Outcome<Error>)
      modifies host`log
      ensures migrations != [] ==> r == Pass && host.log == old(host.log)
      ensures migrations == [] && managerBound && env.ormManager ==>
                r == Pass && host.log == old(host.log) + [Action.DropDatabase, CreateSchema]
      ensures migrations == [] && !(managerBound && env.ormManager) ==>
                r == Fail(TypeError(NotAnOrmManager)) && host.log == old(host.log)
    {
      r := Pass;
      if migrations == [] {
        r := DropDatabase(host);
        if r.Fail? {
          return;
        }
        r := CreateDatabase(host);
      }
    }

    /** The end of a rebuild: `createBackup`, then the references saved to
        `getBackupFile`. */
    method SaveBackup(host: Host, hash: string) returns (r: Outcome<Error>)
      requires Valid() && useBackup
      modifies this`referenceRepository, host
      ensures old(host.log) <= host.log
      ensures host.declared == old(host.declared) && host.subscribers == old(host.subscribers)
      ensures r.Pass? ==> host.files == old(host.files) + {backupService.GetBackupFile(hash)}
      ensures r.Pass? ==> && backupService.DumpCommand(env.connection, hash).Success?
                          && host.log == old(host.log) + [Run(backupService.DumpCommand(env.connection, hash).value),
                                                          SaveReferences(backupService.GetBackupFile(hash))]
                          && backupService.HasBackup(hash, host)
      ensures old(referenceRepository) != null ==> referenceRepository == old(referenceRepository)
    {
      var file := backupService.GetBackupFile(hash);
      r := backupService.CreateBackup(env.connection, hash, env, host);
      if r.Fail? {
        return;
      }
      ghost var created := host.log;
      var repository := GetReferenceRepository();
      host.Record(SaveReferences(file));
      assert host.log == created + [SaveReferences(file)];
    }

    /** `flush`: the entity manager is flushed and cleared, the reference
        repository dropped, and the metadata cache emptied when there is
        one. */
    method Flush(host: Host) returns (r: Outcome<Error>)
      modifies host`log, this`referenceRepository, this`calls
      ensures calls == old(calls) + [Call.Flush]
      ensures !managerBound ==>
        r == Fail(NullReference("entityManager")) && host.log == old(host.log)
        && referenceRepository == old(referenceRepository)
      ensures managerBound ==>
        r == Pass && referenceRepository == null
        && host.log == old(host.log) + [FlushManager, ClearManager] + (if env.metadataCache then [ClearMetadataCache] else [])
    {
      calls := calls + [Call.Flush];
      if !managerBound {
        return Fail(NullReference("entityManager"));
      }
      host.Record(FlushManager);
      host.Record(ClearManager);
      referenceRepository := null;
      if env.metadataCache {
        host.Record(ClearMetadataCache);
      }
      return Pass;
    }
  }
}
