# Doctrine data fixtures for Behat: a verified model

The Behat extension loads Doctrine data fixtures and SQL migrations into a
test database. It also keeps a database dump per fixture set, so later runs
can restore the dump instead of loading everything again. This project
models the extension's core in Dafny and proves properties of that model:

- **Fixture service** (`Fixtures`, with the pure halves in `FixtureRuns`,
  `Resolution`, `Migrations` and `Fingerprint`). The fixture service:
  - discovers the configured SQL migration files, keyed and ordered by version;
  - resolves fixture classes from bundle directories, configured
    directories and class names, following declared dependencies;
  - fingerprints the set by file modification times;
  - loads it between the two truncation events;
  - on the next reload, restores or rebuilds the database dump named
    after that fingerprint;
  - flushes the entity manager.
- **Backup service** (`Registry`). A platform-name-to-strategy registry
  and the backup file path for a hash. It creates and restores a backup
  with the strategy registered for the connection's platform.
- **Dump strategies** (`Backups`, `Shell`). The `mysqldump`/`mysql` and
  `pg_dump`/`pg_restore` command lines, built with `escapeshellarg`. For
  each one it is proved which words the shell sees.
- **Listeners** (`PlatformListeners`, `Hooks`).
  - The platform listener turns MySQL foreign key checks off before
    truncation and back on after it.
  - The hook listener maps Behat's exercise, feature, scenario and example
    events to cache, reload and flush calls, according to the configured
    fixture lifetime.

The world outside the extension lives in `World`:
- An `Env` value holds the kernel's configuration, the files the test run
  sees with their modification times and contents, the fixture classes it
  can autoload, and the outcome of running a shell command.
- A `Host` object holds what the run changes: the action log, the files
  that exist, the classes declared so far and the number of event
  subscribers.

Doctrine's own components are not modelled. The schema tool, the purger,
the executor and the entity manager appear only as entries (`Action`s) in
the action log.

Three behaviours of the code worth knowing:
- `loadFixtureClass` adds a class to the loader before it visits the
  class's dependencies, so a dependency cycle ends when it reaches a class
  the loader already holds. The cycle is still an error later: Doctrine's
  `Loader::getFixtures`, which this model leaves out, rejects it with a
  `CircularReferenceException` when it orders the fixtures.
- The backup registry is keyed by the name the caller gives, not by the
  strategy's own `name()`.
- A MySQL dump that fails still leaves the backup file behind, because
  the shell's `>` creates the file before `mysqldump` runs. After that,
  `hasBackup` is true.

## Model

| member | source | states |
|---|---|---|
| Fixtures.Indexed | src/Service/FixtureService.php:105-118 | the configured migration directories become a PHP list: entry i has key "i" and the i-th directory as value, so the values are exactly the directories in order |
| Fixtures.FixtureService.constructor | src/Service/FixtureService.php:105-118 | the service keeps its configuration, has no loader, bound manager or reference repository yet, and holds the class names and the indexed migration directories; with backups on it keeps the backup service and gives it the kernel's cache directory without touching its registry; with backups off it keeps no backup service and leaves it unchanged |
| Fixtures.FixtureService.Init | src/Service/FixtureService.php:137-142 | the entity manager is bound and exactly one platform listener is subscribed; that subscription is the only action logged |
| Fixtures.FixtureService.GetReferenceRepository | src/Service/FixtureService.php:125-132 | an existing repository is returned and kept; otherwise a fresh one is created and kept once a manager is bound; without a manager the call fails with a TypeError and nothing is kept |
| Fixtures.FixtureService.FetchMigrations | src/Service/FixtureService.php:295-330 | the loop over the directories and their files returns the discovery result: per version the last file found, ordered by version (see Migrations.DiscoverContents) |
| Fixtures.FixtureService.AddVersions | src/Service/FixtureService.php:316-324 | adding one directory's files to the version map gives the map of all files seen so far, in which a later file replaces an earlier one with the same version |
| Fixtures.FixtureService.LoadFixtureClass | src/Service/FixtureService.php:233-250 | the recursive method changes the loader and the declared classes exactly as the reference definition Resolution.LoadClass does, and returns the same outcome |
| Fixtures.FixtureService.LoadDependencies | src/Service/FixtureService.php:245-249 | visiting a fixture's dependencies in order matches Resolution.LoadDeps, and a missing class stops the loop |
| Fixtures.FixtureService.FetchFixturesFromDirectories | src/Service/FixtureService.php:221-226 | loading a list of directories matches Resolution.LoadDirectories; the first missing directory stops the loop |
| Fixtures.FixtureService.FetchFixturesFromClasses | src/Service/FixtureService.php:257-268 | loading the configured class names matches Resolution.LoadClasses |
| Fixtures.FixtureService.LoadConfiguredClass | src/Service/FixtureService.php:259-266 | one configured name is qualified with a leading backslash and loaded only when no class of that name is declared yet |
| Fixtures.FixtureService.FetchFixtures | src/Service/FixtureService.php:275-286 | a fresh loader receives the bundle directories (when autoloading), then the configured directories, then the configured classes; the loader and the declared classes end as FixtureRuns.ResolveFixtures says |
| Fixtures.FixtureService.DispatchEvent | src/Service/FixtureService.php:338-343 | without an entity manager the call throws a TypeError and logs nothing; otherwise the event is dispatched once and every subscribed platform listener reacts to it |
| Fixtures.FixtureService.RunMigrations | src/Service/FixtureService.php:374-407 | the actions logged and the outcome are those of FixtureRuns.MigrationRun; in particular a missing `doctrine_migrations.namespace` parameter, when there are migration files, fails with an invalid-argument error and logs nothing |
| Fixtures.FixtureService.ExecuteFiles | src/Service/FixtureService.php:402-406 | each migration file's statements are run in file order; an unreadable file stops the loop with a TypeError |
| Fixtures.FixtureService.ExecuteStatements | src/Service/FixtureService.php:403-405 | every line of the trimmed file is executed as one query, in order |
| Fixtures.FixtureService.LoadFixtures | src/Service/FixtureService.php:348-369 | the log grows by exactly FixtureRuns.LoadRun's actions and the outcome is LoadRun's; a reference repository exists whenever the load succeeded, and an existing one is kept |
| Fixtures.FixtureService.DropDatabase | src/Service/FixtureService.php:426-430 | with an ORM manager the schema is dropped; otherwise the call throws a TypeError and logs nothing |
| Fixtures.FixtureService.CreateDatabase | src/Service/FixtureService.php:414-421 | with no manager bound the call fails with a null reference; with a non-ORM manager it throws a TypeError; otherwise the schema is created; the two failures log nothing |
| Fixtures.FixtureService.CacheFixtures | src/Service/FixtureService.php:435-445 | the service records one cache call, binds the manager and subscribes once, replaces the migration directories by the discovered version map and the class names by the loaded fixtures; it drops the database exactly when backups are on and no backup exists for the fingerprint of the loaded fixtures; a resolution failure is returned with the class names kept |
| Fixtures.FixtureService.CacheMigrations | src/Service/FixtureService.php:437-439 | one cache call is recorded and the migration directories are replaced by the discovered version map after one subscription |
| Fixtures.FixtureService.CacheLoadedFixtures | src/Service/FixtureService.php:440-444 | the fixtures are resolved as FixtureRuns.ResolveFixtures says and the database is dropped only when backups are on and the backup is missing; a failed resolution logs nothing and keeps the class names |
| Fixtures.FixtureService.DropStale | src/Service/FixtureService.php:442-444 | the database is dropped exactly when backups are on and no backup exists for the fingerprint of the loaded fixtures; a non-ORM manager makes that drop throw |
| Fixtures.FixtureService.ReloadFixtures | src/Service/FixtureService.php:492-518 | the service records one reload call and the declared classes and subscribers stay as they were; without backups the log grows by exactly LoadRun and no file changes; with backups see ReloadWithBackup |
| Fixtures.FixtureService.ReloadWithBackup | src/Service/FixtureService.php:498-517 | one reload call is recorded and the declared classes and subscribers stay as they were; an unusable fingerprint fails before anything is logged or created; an existing backup is restored with the restore command the backup service builds for the fingerprint, its references are loaded, no fixture is executed and no file is created; otherwise the database is prepared, the fixtures are loaded, the backup service's dump command runs and the references are saved, and on success the backup exists and the files are the earlier ones plus the backup file |
| Fixtures.FixtureService.RestoreOrRebuild | src/Service/FixtureService.php:500-517 | one reload call is recorded and the declared classes and subscribers stay as they were; the backup check chooses between the restored outcome with no file created and the rebuilt outcome, which on success adds exactly the backup file |
| Fixtures.FixtureService.RestoreFixtures | src/Service/FixtureService.php:500-507 | one reload call is recorded, no file is created and the declared classes and subscribers stay as they were; without a manager nothing is logged; on success exactly two actions are logged: the restore command the backup service builds for the hash, then the reference loading from beside the dump |
| Fixtures.FixtureService.RebuildFixtures | src/Service/FixtureService.php:509-517 | one reload call is recorded; on success the log is exactly the earlier log, the drop and create when there are no migrations, LoadRun's actions, the dump command the backup service builds for the hash, and the reference save beside the dump; the files are then the earlier ones plus the backup file; the declared classes and subscribers stay as they were |
| Fixtures.FixtureService.PrepareAndLoad | src/Service/FixtureService.php:509-514 | when it succeeds, the database was dropped and recreated (only when there are no migrations), the fixtures were loaded exactly as LoadRun says, and a reference repository exists |
| Fixtures.FixtureService.PrepareDatabase | src/Service/FixtureService.php:509-512 | with migrations nothing happens; without them the schema is dropped and created, or the call throws a TypeError when there is no ORM manager |
| Fixtures.FixtureService.SaveBackup | src/Service/FixtureService.php:515-517 | on success exactly two actions are logged, the backup service's dump command for the hash and the reference save beside the backup file, and the files are the earlier ones plus the backup file; the declared classes and subscribers stay as they were |
| Fixtures.FixtureService.Flush | src/Service/FixtureService.php:523-536 | one flush call is recorded; with no manager the call fails and changes nothing else; otherwise the manager is flushed and cleared, the metadata cache is cleared when there is one, and the reference repository is forgotten |
| FixtureRuns.Values | src/Service/FixtureService.php:275-286 | the values of an entry list, in order |
| FixtureRuns.ResolveFixtures | src/Service/FixtureService.php:275-286 | for configured class names the result is Resolution.Resolve; the loader never holds a class twice; declared classes only grow |
| FixtureRuns.Statements | src/Service/FixtureService.php:403 | a file yields at least one statement and none contains a newline |
| FixtureRuns.StatementsCoverFile | src/Service/FixtureService.php:403 | the statements joined with newlines give back the trimmed file, so no text is lost or added |
| FixtureRuns.Queries | src/Service/FixtureService.php:403 | one query per statement, in order |
| FixtureRuns.FileRunsQueries | src/Service/FixtureService.php:402-406 | running migration files issues only queries and never a Doctrine migration |
| FixtureRuns.FileRunsComplete | src/Service/FixtureService.php:402-406 | running the files succeeds exactly when every file is readable |
| FixtureRuns.FileRunsStep | src/Service/FixtureService.php:402-406 | one loop step: an unreadable file fails with nothing logged, a readable one logs its queries before the rest |
| FixtureRuns.FileRunsConcat | src/Service/FixtureService.php:402-406 | running two lists of files is running the first and, unless it failed, then the second |
| FixtureRuns.MigrationRun | src/Service/FixtureService.php:374-407 | no migrations means no action and success; migrations without a `doctrine_migrations.namespace` parameter fail with an invalid-argument error before anything runs; otherwise the outcome is that of running the files |
| FixtureRuns.MigrationRunStatements | src/Service/FixtureService.php:374-407 | migrating issues only the Doctrine migration and SQL statements |
| FixtureRuns.MigrationRunMigrates | src/Service/FixtureService.php:380-386 | the Doctrine migration runs exactly when there are migration files and the `doctrine_migrations.namespace` parameter is defined and truthy |
| FixtureRuns.RepeatItems | src/Service/FixtureService.php:338-343 | a repeated listener reaction contains only the actions of that reaction |
| FixtureRuns.RepeatSnoc | src/Service/FixtureService.php:338-343 | one more subscriber adds one more reaction at the end |
| FixtureRuns.DispatchRun | src/Service/FixtureService.php:338-343 | a dispatch starts with the event itself |
| FixtureRuns.DispatchRunShape | src/EventListener/PlatformListener.php:46-81 | after the event, every action is the foreign key statement that belongs to that event |
| FixtureRuns.DispatchNoPurge | src/Service/FixtureService.php:338-343 | a dispatch never purges |
| FixtureRuns.Executed | src/Service/FixtureService.php:366 | fixtures can be executed exactly when they were loaded (or none were configured) |
| FixtureRuns.LoadRunBracketed | src/Service/FixtureService.php:348-369 | a successful load starts with preTruncate and ends with postTruncate followed only by the statements that turn foreign key checks back on |
| FixtureRuns.PassedParts | src/Service/FixtureService.php:348-369 | a successful load is the preTruncate dispatch, a purge unless backups are on, the migrations, the executor run over the loaded fixtures, and the postTruncate dispatch |
| FixtureRuns.LoadRunParts | src/Service/FixtureService.php:348-369 | every load, successful or not, is its front part, then its migration part, then its remaining part |
| FixtureRuns.RunPartsShape | src/Service/FixtureService.php:348-369 | the front part holds only bookkeeping, the migration part only statements, and the remaining part starts with the executor |
| FixtureRuns.FrontShape | src/Service/FixtureService.php:350-362 | the front part of a load holds only dispatches, listener statements and the purge |
| FixtureRuns.RestShape | src/Service/FixtureService.php:366-369 | the remaining part is empty or starts with the executor run, followed by bookkeeping |
| FixtureRuns.PurgeOnlyWithoutBackup | src/Service/FixtureService.php:360-362 | a successful load purges the database exactly when backups are off |
| FixtureRuns.MigrationsBeforeFixtures | src/Service/FixtureService.php:364-366 | in any load, every migration statement comes before the fixture executor |
| FixtureRuns.StatementsFirst | src/Service/FixtureService.php:364-366 | in a trace made of bookkeeping, then statements, then the executor and bookkeeping, each statement comes before the executor |
| Resolution.Canonical | src/Service/FixtureService.php:259-262 | dropping a leading backslash never lengthens a name |
| Resolution.Qualify | src/Service/FixtureService.php:259-262 | the qualified name starts with a backslash and names the same class |
| Resolution.LoadClass | src/Service/FixtureService.php:233-250 | loading a class only adds to the loader and keeps it duplicate-free; it fails only with class-not-found; on success the class and all of its transitive dependencies are loaded; a class not yet loaded is appended before its dependencies |
| Resolution.LoadDeps | src/Service/FixtureService.php:245-249 | on success every dependency is loaded and everything added is closed under dependencies; the loader stays duplicate-free |
| Resolution.LoadDepsStep | src/Service/FixtureService.php:245-249 | the loop stops at the first dependency that fails and otherwise goes on from the state it left |
| Resolution.LoadedClassAddsNothing | src/Service/FixtureService.php:237-241 | a class the loader already holds only becomes declared |
| Resolution.NewClassAppends | src/Service/FixtureService.php:243-249 | a new class is appended and declared, then its dependencies are loaded |
| Resolution.MissingClassThrows | src/Service/FixtureService.php:235 | instantiating an unknown class fails with class-not-found and changes nothing |
| Resolution.DependentClassExample | src/Service/FixtureService.php:233-250 | loading B, which depends on A, gives the loader B then A |
| Resolution.CycleExample | src/Service/FixtureService.php:233-250 | two fixtures that depend on each other load once each, without looping; Doctrine's `getFixtures`, not modelled, later rejects such a cycle |
| Resolution.AddNew | src/Service/FixtureService.php:221-226 | adding a directory's classes keeps the loader's order, adds each class once, and adds nothing else |
| Resolution.LoadDirectory | src/Service/FixtureService.php:221-226 | a directory that does not exist fails with an invalid-argument error and changes nothing; otherwise its classes are added without duplicates |
| Resolution.LoadDirectories | src/Service/FixtureService.php:221-226 | loading directories fails exactly when one of them does not exist |
| Resolution.LoadDirectoriesStep | src/Service/FixtureService.php:221-226 | the loop stops at the first missing directory |
| Resolution.LoadClasses | src/Service/FixtureService.php:257-268 | on success every configured class is declared and the new part of the loader is closed under dependencies |
| Resolution.LoadClassesStep | src/Service/FixtureService.php:257-268 | the loop stops at the first class that fails |
| Resolution.DeclaredClassSkipped | src/Service/FixtureService.php:264-266 | a configured class that is already declared is skipped entirely |
| Resolution.BundleDirectories | src/Service/FixtureService.php:202-214 | exactly the bundles' `DataFixtures/ORM` sub-directories that exist, at most one per bundle |
| Resolution.Resolve | src/Service/FixtureService.php:275-286 | the loader is duplicate-free, declared classes only grow, failure is a missing directory or class, and on success every configured class is declared |
| Resolution.ResolveOrder | src/Service/FixtureService.php:275-286 | bundle directories are loaded before configured directories, which come before configured classes, and the classes part is closed under dependencies |
| Resolution.RemainingShrinks | src/Service/FixtureService.php:233-250 | the number of classes not yet loaded never grows as the loader grows, which bounds the recursion |
| Resolution.RemainingAppend | src/Service/FixtureService.php:243 | appending a new known class strictly lowers that number |
| Resolution.ExtendsTransitive | src/Service/FixtureService.php:275-286 | one loading state extending another is transitive |
| Migrations.LastComponent | src/Service/FixtureService.php:317 | the part of a path after its last `/` |
| Migrations.TrimTrailingSlashes | src/Service/FixtureService.php:317 | `basename` ignores trailing slashes: the result is the path without them |
| Migrations.Basename | src/Service/FixtureService.php:317 | a base name never contains `/` |
| Migrations.VersionOfSpec | src/Service/FixtureService.php:317-321 | the version is the group of `^[vV]([^_]+)_` when the pattern matches, and the whole base name otherwise |
| Migrations.Put | src/Service/FixtureService.php:323 | assigning a key adds the entry, keeps every entry with another key, keeps keys unique, and replaces the old value of that key |
| Migrations.Latest | src/Service/FixtureService.php:316-324 | the last file seen for a version, or nothing when there is none |
| Migrations.CollectContents | src/Service/FixtureService.php:316-324 | the version map has unique keys and holds a file exactly when it is the last one seen for its version |
| Migrations.CollectSnoc | src/Service/FixtureService.php:323 | one more file is one more assignment |
| Migrations.DiscoverStep | src/Service/FixtureService.php:316-324 | one step of the inner loop |
| Migrations.CandidatesSnoc | src/Service/FixtureService.php:305-314 | each directory contributes its `.sql` files, or those of its per-driver sub-directory when it has none |
| Migrations.DiscoverContents | src/Service/FixtureService.php:295-330 | the discovered versions are unique, an entry is present exactly when it is the last file for its version, no directory gives no migration, and the entries are sorted by version when version comparison is a total order |
| Migrations.PermutationKeysUnique | src/Service/FixtureService.php:327 | sorting keeps the versions unique |
| Fingerprint.Hash | src/Service/FixtureService.php:162-195 | hashing fails with a TypeError exactly when the fixtures are still configured class names (and there is at least one), and is otherwise the SHA-1 of the migration and fixture descriptors |
| Fingerprint.HashedDescriptors | src/Service/FixtureService.php:175-195 | each migration is paired with its modification time in order; the fixture descriptors are sorted and are a permutation of one descriptor per class |
| Fingerprint.HashIgnoresFixtureOrder | src/Service/FixtureService.php:192 | two loads of the same fixtures in a different order have the same fingerprint |
| Fingerprint.DescriptorChanges | src/Service/FixtureService.php:186-189 | a changed modification time of a fixture's file changes its descriptor |
| Fingerprint.FixtureMtimeChangesHash | src/Service/FixtureService.php:183-195 | touching a fixture's file changes what is hashed, so its old backup is not reused |
| Fingerprint.MigrationMtimeChangesHash | src/Service/FixtureService.php:177-181 | touching a migration file changes what is hashed |
| Fingerprint.LexLeOrders | src/Service/FixtureService.php:192 | the byte order `sort` uses on strings is total, transitive and antisymmetric |
| Sorting.SortBy | src/Service/FixtureService.php:192 | sorting is a permutation |
| Sorting.SortBySorted | src/Service/FixtureService.php:192 | the result is sorted under a total, transitive order |
| Sorting.SortByPermutation | src/Service/FixtureService.php:192 | the result depends only on the multiset of inputs |
| Sorting.SortedUnique | src/Service/FixtureService.php:327 | two sorted permutations of each other are equal under an antisymmetric order |
| Sorting.InsertSorted | src/Service/FixtureService.php:192 | inserting into a sorted sequence keeps it sorted |
| Sorting.MapSeqPermutation | src/Service/FixtureService.php:185 | mapping permuted inputs gives permuted outputs |
| Strings.Trim | src/Service/FixtureService.php:403 | the trimmed text neither starts nor ends with whitespace |
| Strings.TrimInfix | src/Service/FixtureService.php:403 | the trimmed text is the middle of the original, and everything removed around it is whitespace |
| Strings.Explode | src/Service/FixtureService.php:403 | `explode` returns at least one part, and no part contains the separator |
| Strings.JoinExplode | src/Service/FixtureService.php:403 | joining the exploded parts gives back the text |
| Strings.ExplodeJoin | src/Service/FixtureService.php:403 | exploding joined separator-free parts gives back the parts |
| Strings.NatToString | src/Service/FixtureService.php:105-118 | a decimal numeral of digits only, one digit exactly below ten |
| Strings.NatToStringInjective | src/Service/FixtureService.php:105-118 | different list positions get different keys |
| Strings.IntToString | src/Service/Backup/PostgresqlDumpBackup.php:78-80 | the decimal text of an integer starts with a minus sign exactly when it is negative |
| Registry.Lookup | src/Service/BackupService.php:74-84 | a missing map throws a TypeError; a registered platform gives its strategy; any other name fails with "Unsupported platform" and that name |
| Registry.LastFor | src/Service/BackupService.php:45-50 | the last strategy given for a name, if any |
| Registry.LastIndex | src/Service/BackupService.php:45-50 | the position of the last entry for a name |
| Registry.RegisterAllLookup | src/Service/BackupService.php:45-50 | after registering a list, a name maps to its last strategy in the list, and a name absent from the list keeps its earlier registration |
| Registry.LookupAfterRegister | src/Service/BackupService.php:64-67 | after registering one strategy, its name finds it and every other name finds what it found before |
| Registry.BackupPath | src/Service/BackupService.php:93-96 | the backup file is the cache directory, then `/test_`, then the hash |
| Registry.BackupPathInjective | src/Service/BackupService.php:93-96 | within one cache directory, different fingerprints never share a backup file |
| Registry.BackupService.constructor | src/Service/BackupService.php:27-32 | no cache directory and no registry yet |
| Registry.BackupService.SetCacheDir | src/Service/BackupService.php:37-40 | the cache directory is set and the registry kept |
| Registry.BackupService.SetPlatformBackup | src/Service/BackupService.php:64-67 | one name is bound to the strategy, on top of the earlier registry or an empty one |
| Registry.BackupService.SetPlatformBackupMap | src/Service/BackupService.php:45-50 | every entry of the list is registered in order; an empty list leaves the registry as it was |
| Registry.BackupService.GetPlatformBackupMap | src/Service/BackupService.php:55-58 | the registry when one exists, and a failure otherwise |
| Registry.BackupService.CreateBackup | src/Service/BackupService.php:116-125 | an unsupported platform or a refused command changes nothing; otherwise the strategy's dump command runs, the backup file is created, and after a success the command logged is the one DumpCommand gives and the backup exists |
| Registry.BackupService.RestoreBackup | src/Service/BackupService.php:133-142 | an unsupported platform or a refused command changes nothing; otherwise the strategy's restore command runs; after a success the command logged is the one RestoreCommand gives; no file is created |
| Backups.AppendIf | src/Service/Backup/MysqlDumpBackup.php:77-91 | appending an option only when its parameter is present keeps the text equal to the printed item list |
| Backups.AppendMysqlOptions | src/Service/Backup/MysqlDumpBackup.php:77-91 | the host, user, password and port options are appended as the printed option items |
| Backups.MysqlOptionsReadable | src/Service/Backup/MysqlDumpBackup.php:77-91 | every option reads back as one shell word |
| Backups.MysqlOptionsWords | src/Service/Backup/MysqlDumpBackup.php:77-91 | the shell sees a `--host=`, `--user=` or `--password=` word for exactly the parameters that are set and non-empty, and a `-P` word whenever a port is set, each with its value unchanged |
| Backups.MysqlCommandWords | src/Service/Backup/MysqlDumpBackup.php:75-91 | the shell sees the program, the database, the redirection, the file, then the options; no value can inject another word |
| Backups.MysqlDumpBackup.constructor | src/Service/Backup/MysqlDumpBackup.php:23-24 | the programs default to `mysqldump` and `mysql` |
| Backups.MysqlDumpBackup.SetMysqldumpBin | src/Service/Backup/MysqlDumpBackup.php:29-32 | the dump program is replaced and the restore program kept |
| Backups.MysqlDumpBackup.SetMysqlBin | src/Service/Backup/MysqlDumpBackup.php:45-48 | the restore program is replaced and the dump program kept |
| Backups.MysqlDumpBackup.Name | src/Service/Backup/MysqlDumpBackup.php:37-40 | the strategy's name is `mysql` |
| Backups.MysqlDumpBackup.Create | src/Service/Backup/MysqlDumpBackup.php:73-94 | the dump command into the file runs and the file exists afterwards, even when the command fails |
| Backups.MysqlDumpBackup.Restore | src/Service/Backup/MysqlDumpBackup.php:99-120 | the restore command from the file runs and creates no file |
| Backups.StrictFilled | src/Service/Backup/PostgresqlDumpBackup.php:70-75 | under strict types an integer parameter throws a TypeError, and a parameter counts as filled exactly when it is non-empty text |
| Backups.PgPlanFails | src/Service/Backup/PostgresqlDumpBackup.php:70-92 | with the port corrected, building either command fails exactly when the host, user or password is an integer, and then with a TypeError |
| Backups.BuildPgOptions | src/Service/Backup/PostgresqlDumpBackup.php:68-80 | the option text is the printed option items, or the same failure |
| Backups.PgOptionsWords | src/Service/Backup/PostgresqlDumpBackup.php:70-80 | the shell sees `--host=`, `--username=` and `--port=` words for exactly the parameters given, with their values unchanged |
| Backups.PasswordText | src/Service/Backup/PostgresqlDumpBackup.php:90-92 | a password becomes one `PGPASSWORD=` word in front of the program |
| Backups.PgDumpWords | src/Service/Backup/PostgresqlDumpBackup.php:82-92 | the dump command's words: password, `pg_dump -Fc`, options, database, `>`, file |
| Backups.PgRestoreWords | src/Service/Backup/PostgresqlDumpBackup.php:116-126 | the restore command's words: password, `pg_restore --clean`, options, `--dbname=` with the database, file |
| Backups.PgCreateCommandWords | src/Service/Backup/PostgresqlDumpBackup.php:66-92 | the dump command built from connection parameters splits into exactly the intended words |
| Backups.PgRestoreCommandWords | src/Service/Backup/PostgresqlDumpBackup.php:100-126 | the restore command built from connection parameters splits into exactly the intended words |
| Backups.IntegerPortAsWritten | src/Service/Backup/PostgresqlDumpBackup.php:78-80 | as written, an integer port makes option building throw a TypeError |
| Backups.OptionsAsWrittenFail | src/Service/Backup/PostgresqlDumpBackup.php:70-80 | as written, building the options fails exactly when the host, user or port is an integer, and then with a TypeError |
| Backups.IntegerPortExample | src/Service/Backup/PostgresqlDumpBackup.php:78-80 | host `localhost` and integer port 5432: the code as written fails, the corrected code gives `--host=localhost --port=5432` |
| Backups.IntegerPortCorrected | src/Service/Backup/PostgresqlDumpBackup.php:78-80 | with the port converted to text first, an integer port gives a `--port=` word with its decimal value |
| Backups.PortCorrectionConservative | src/Service/Backup/PostgresqlDumpBackup.php:78-80 | the correction changes nothing when the port is not an integer |
| Backups.PostgresqlDumpBackup.constructor | src/Service/Backup/PostgresqlDumpBackup.php:28-33 | the programs default to `pg_restore` and `pg_dump` |
| Backups.PostgresqlDumpBackup.Name | src/Service/Backup/PostgresqlDumpBackup.php:38-41 | the strategy's name is `postgresql` |
| Backups.PostgresqlDumpBackup.Create | src/Service/Backup/PostgresqlDumpBackup.php:66-95 | a refused parameter changes nothing; otherwise the dump command runs and the file exists afterwards |
| Backups.PostgresqlDumpBackup.Restore | src/Service/Backup/PostgresqlDumpBackup.php:100-129 | a refused parameter changes nothing; otherwise the restore command runs, and no file is created |
| Backups.Backup.Name | src/Service/Backup/BackupInterface.php:21-26 | the name says which strategy it is |
| Backups.Backup.Create | src/Service/Backup/BackupInterface.php:28-35 | a strategy's create runs its planned dump command, or fails without effect |
| Backups.Backup.Restore | src/Service/Backup/BackupInterface.php:37-44 | a strategy's restore runs its planned restore command, or fails without effect |
| World.RunOutcome | src/Service/Backup/MysqlDumpBackup.php:57-68 | a command succeeds exactly when its process does, and otherwise fails with the process's error output |
| World.RunCommand | src/Service/Backup/PostgresqlDumpBackup.php:50-61 | running a command logs it, changes nothing else, and returns its outcome |
| Shell.EscapeShellArg | src/Service/Backup/MysqlDumpBackup.php:75 | the argument is wrapped in single quotes |
| Shell.EscapeRoundTrip | src/Service/Backup/MysqlDumpBackup.php:75 | the shell reads an escaped argument back as exactly that one word |
| Shell.WordsOfItems | src/Service/Backup/MysqlDumpBackup.php:75-91 | a command printed from literal words and escaped arguments splits back into exactly those words |
| PlatformListeners.EventName | src/EventListener/PlatformListener.php:31-37 | each truncation event has its own name |
| PlatformListeners.SubscribedEvents | src/EventListener/PlatformListener.php:31-37 | the listener subscribes to exactly the two truncation events |
| PlatformListeners.Effect | src/EventListener/PlatformListener.php:46-81 | a manager that is not an entity manager throws; on MySQL the listener executes the event's foreign key statement; on other platforms it does nothing |
| PlatformListeners.TruncationBracketed | src/EventListener/PlatformListener.php:53-80 | on MySQL the two events turn foreign key checks off and then on again; on other platforms they do nothing |
| PlatformListeners.Handle | src/EventListener/PlatformListener.php:46-81 | handling an event logs exactly its effect, or fails and logs nothing |
| Hooks.SubscribedEvents | src/EventListener/HookListener.php:53-64 | seven Behat events, each subscribed once, to its handler |
| Hooks.ExamplesLikeScenarios | src/EventListener/HookListener.php:59-62 | outline examples are handled like scenarios |
| Hooks.CallOf | src/EventListener/HookListener.php:81-140 | the exercise always caches; feature hooks act only with the feature lifetime and scenario hooks only with the scenario lifetime; before-hooks reload, after-hooks flush |
| Hooks.ExactlyOnePairActive | src/EventListener/HookListener.php:91-140 | with a valid lifetime exactly one of the feature and scenario hook pairs acts |
| Hooks.CallsAppend | src/EventListener/HookListener.php:53-64 | the calls for a sequence of events are the calls for each part in turn |
| Hooks.ScenarioCalls | src/EventListener/HookListener.php:119-140 | a scenario or example gives one reload and one flush with the scenario lifetime, and nothing otherwise |
| Hooks.ScenariosCalls | src/EventListener/HookListener.php:119-140 | several scenarios give one reload-flush pair each with the scenario lifetime |
| Hooks.FeatureCalls | src/EventListener/HookListener.php:91-140 | a feature gives one reload-flush pair with the feature lifetime, and one per scenario otherwise |
| Hooks.FeaturesCalls | src/EventListener/HookListener.php:91-140 | a run of features gives one reload-flush pair per feature or per scenario |
| Hooks.ExerciseCalls | src/EventListener/HookListener.php:81-140 | a whole exercise caches once, then reloads and flushes once per feature or once per scenario, in alternation |
| Hooks.Invoke | src/EventListener/HookListener.php:81-140 | the fixture service records exactly the requested call |
| Hooks.HookListener.constructor | src/EventListener/HookListener.php:45-48 | the listener keeps its lifetime and has no fixture service yet |
| Hooks.HookListener.SetFixtureService | src/EventListener/HookListener.php:71-74 | the fixture service is set |
| Hooks.HookListener.Perform | src/EventListener/HookListener.php:81-140 | without a fixture service a call fails with a null reference and changes nothing; otherwise the service records exactly that call |
| Hooks.HookListener.BeforeExercise | src/EventListener/HookListener.php:81-84 | the fixture service records one cache call, or the call fails with a null reference and changes nothing when there is no service |
| Hooks.HookListener.BeforeFeature | src/EventListener/HookListener.php:91-98 | with the feature lifetime the fixture service records one reload call (or the call fails without a service); otherwise nothing happens |
| Hooks.HookListener.AfterFeature | src/EventListener/HookListener.php:105-112 | with the feature lifetime the fixture service records one flush call (or the call fails without a service); otherwise nothing happens |
| Hooks.HookListener.BeforeScenario | src/EventListener/HookListener.php:119-126 | with the scenario lifetime the fixture service records one reload call (or the call fails without a service); otherwise nothing happens |
| Hooks.HookListener.AfterScenario | src/EventListener/HookListener.php:133-140 | with the scenario lifetime the fixture service records one flush call (or the call fails without a service); otherwise nothing happens |
| Hooks.HookListener.Notify | src/EventListener/HookListener.php:53-64 | dispatching an event makes the fixture service record exactly the calls that the subscription table and the lifetime give; an event with no call changes neither the host nor the fixture service |

## Left out

- The Doctrine fixture loader's internals are not part of this model. Its `getFixtures` reorders fixtures by dependency and order number; here the loaded fixtures stay in the order they were added. It also rejects a dependency cycle with a `CircularReferenceException`, so a cycle that `CycleExample` loads without looping still fails there. `loadFromDirectory` is an oracle: it gives each directory's classes.
- The schema tool, the purger, the executor, the migrations runner and the reference repository's storage are not modelled. They appear only as actions in the log.
- `sha1` and `serialize` are an uninterpreted function on the structured hash input, and `version_compare` is a given comparison. Sorting by version is proved only for comparisons that are total and transitive.
- `DIRECTORY_SEPARATOR` is `/`.
- PHP class names are compared case-sensitively here; PHP compares them case-insensitively.
- The filesystem, process execution, the clock (modification times) and the shell are parameters of `Env`. Concurrent test runs that share the cache directory are not modelled.
- Calling a method on a `null` field becomes a `NullReference` error that names the field.
- The backup strategy interface is a closed datatype over the two strategies, so other strategies cannot be plugged in.
- Dependency injection wiring, the Behat extension class, the context initializer and the service configuration are left out: they only pass configuration in.
- `getFixtureLoader` picks one of three loader classes by `class_exists`. All three are modelled as the same empty loader.
- Hooks.Invoke: states which fixture-service operation ran, through the service's record of calls, and not the operation's effect or outcome. Each operation's own contract states those.
- Hooks.HookListener.constructor: accepts any lifetime, as the source does. The lemmas about which hooks act assume the lifetime is `feature` or `scenario`, the two values the extension's configuration allows.
- Hooks.HookListener.Perform: states which service operation ran, not that it returns that operation's outcome (the code returns it unchanged).
- Hooks.HookListener.BeforeExercise: states that the service recorded a cache call, not the outcome it returned.
- Hooks.HookListener.BeforeFeature: states that the service recorded a reload call, not the outcome it returned.
- Hooks.HookListener.AfterFeature: states that the service recorded a flush call, not the outcome it returned.
- Hooks.HookListener.BeforeScenario: states that the service recorded a reload call, not the outcome it returned.
- Hooks.HookListener.AfterScenario: states that the service recorded a flush call, not the outcome it returned.
- Hooks.HookListener.Notify: states the calls the service recorded, not their outcomes.
- Fixtures.FixtureService.ReloadFixtures: when a restore or a rebuild fails part-way, states only that the log grew, not how far the reload got.
- Fixtures.FixtureService.RebuildFixtures: on failure, states only that the log grew.
- The `doctrine_migrations.dir_name`, `name` and `table_name` parameters and the Doctrine migration run itself are taken not to throw. Only the missing `doctrine_migrations.namespace` parameter is modelled as an error.
- Backups.PostgresqlDumpBackup.Create: builds its options with the corrected port, so an integer port does not throw as the code does (see Findings and Backups.OptionsAsWrittenFail).
- Backups.PostgresqlDumpBackup.Restore: builds its options with the corrected port, like Create.
- Backups.BuildPgOptions: builds the options with the corrected port.
- Backups.PgPlanFails: is stated for the corrected port. As written an integer port also throws, as Backups.OptionsAsWrittenFail states.
- Fixtures.FixtureService.RestoreFixtures: says that exactly two actions are logged on success, not how far it got on failure.
- Fixtures.FixtureService.SaveBackup: on failure, states only that the log grew.
- Shell.EscapeShellArg: the model of the shell's word splitting covers blanks, single quotes and backslashes. Other metacharacters do not occur in the commands the strategies build outside quotes.
- Migrations.Basename: states only that the result holds no `/`. The suffix rule is in its definition and LastComponent states the rest.

## Findings

| source | as written | input that shows it | evidently intended | confidence | as-written member | corrected member |
|---|---|---|---|---|---|---|
| src/Service/Backup/PostgresqlDumpBackup.php:78-80 | under `declare(strict_types=1)` the port is passed to `escapeshellarg` unchanged, so an integer port throws a TypeError before the dump or restore command is built | connection parameters `host => 'localhost'`, `port => 5432` (an integer) | the options `--host='localhost' --port='5432'` | not executed | Backups.IntegerPortExample | Backups.IntegerPortCorrected |
