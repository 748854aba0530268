/** What `FixtureService` does to the database when it loads fixtures, as
    the sequence of actions it performs: the truncation events and their
    listeners, the purge, the migrations statement by statement, the
    fixture execution. */
module FixtureRuns {
  import opened Wrappers
  import opened Strings
  import opened Sorting
  import opened World
  import opened Migrations
  import opened Fingerprint
  import opened Resolution
  import opened PlatformListeners

  /** The values of a PHP array, in order. */
  function Values(entries: seq<Entry>): (vs: seq<string>)
    ensures |vs| == |entries|
    ensures forall i :: 0 <= i < |entries| ==> vs[i] == entries[i].1
  {
    if entries == [] then [] else [entries[0].1] + Values(entries[1..])
  }

  /** `fetchFixtures` over the current `$fixtures`: the configured names are
      loaded; loaded fixture objects cannot go through `substr` again. */
  function ResolveFixtures(env: Env, declared: set<string>, autoload: bool,
                           directories: seq<string>, fixtures: FixtureList): (r: Step)
    ensures Unique(r.st.loader) && declared <= r.st.declared
    ensures fixtures.ClassNames? ==> r == Resolve(env, declared, autoload, directories, fixtures.names)
    ensures fixtures.Instances? && fixtures.classes != [] ==> r.outcome.Fail?
  {
    match fixtures
    case ClassNames(names) => Resolve(env, declared, autoload, directories, names)
    case Instances(classes) =>
      var s := Resolve(env, declared, autoload, directories, []);
      if s.outcome.Fail? || classes == [] then s
      else Step(s.st, Fail(TypeError("substr(): Argument #1 ($string) must be of type string, object given")))
  }

  /** PHP truthiness of a string parameter. */
  predicate Truthy(s: string) {
    s != "" && s != "0"
  }

  /** The statements of a migration file: its trimmed text split at line ends. */
  function Statements(text: string): (lines: seq<string>)
    ensures |lines| >= 1 && forall i :: 0 <= i < |lines| ==> '\n' !in lines[i]
  {
    Explode(Trim(text), '\n')
  }

  /** Every line of the trimmed file is executed, and nothing else: joined
      with line ends, the statements are the trimmed file. */
  lemma StatementsCoverFile(text: string)
    ensures Join(Statements(text), '\n') == Trim(text)
  {
    JoinExplode(Trim(text), '\n');
  }

  function Queries(lines: seq<string>): (qs: seq<Action>)
    ensures |qs| == |lines| && forall i :: 0 <= i < |lines| ==> qs[i] == Query(lines[i])
  {
    if lines == [] then [] else [Query(lines[0])] + Queries(lines[1..])
  }

  /** The message of the TypeError `trim` throws for a file that cannot be read. */
  const UnreadableFile := "trim(): Argument #1 ($string) must be of type string, bool given"

  /** The statements of the migration files, file after file; a file that
      cannot be read makes `trim` throw and the files after it are not run. */
  function FileRuns(env: Env, migrations: seq<Entry>): (seq<Action>, Outcome<Error>)
  {
    if migrations == [] then ([], Pass)
    else if migrations[0].1 !in env.contents then ([], Fail(TypeError(UnreadableFile)))
    else
      var rest := FileRuns(env, migrations[1..]);
      (Queries(Statements(env.contents[migrations[0].1])) + rest.0, rest.1)
  }

  /** Only statements are executed. */
  lemma {:induction false} FileRunsQueries(env: Env, migrations: seq<Entry>)
    ensures AllStatements(FileRuns(env, migrations).0)
    ensures Migrate !in FileRuns(env, migrations).0
  {
    if migrations != [] && migrations[0].1 in env.contents {
      var rest := FileRuns(env, migrations[1..]).0;
      FileRunsQueries(env, migrations[1..]);
      var qs := Queries(Statements(env.contents[migrations[0].1]));
      StatementsConcat(qs, rest);
    }
  }

  /** Only statements: queries and the Doctrine migrations. */
  predicate AllStatements(acts: seq<Action>) {
    forall i :: 0 <= i < |acts| ==> acts[i].Query? || acts[i].Migrate?
  }

  /** Queries, then a run without the Doctrine migrations. */
  lemma StatementsConcat(qs: seq<Action>, rest: seq<Action>)
    requires forall i :: 0 <= i < |qs| ==> qs[i].Query?
    requires AllStatements(rest) && Migrate !in rest
    ensures AllStatements(qs + rest) && Migrate !in qs + rest
  {
    var acts := qs + rest;
    forall i | 0 <= i < |acts| ensures acts[i].Query? || acts[i].Migrate? {
      if i >= |qs| {
        assert acts[i] == rest[i - |qs|];
      }
    }
    forall i | 0 <= i < |acts| ensures acts[i] != Migrate {
      if i >= |qs| {
        assert acts[i] == rest[i - |qs|] && rest[i - |qs|] in rest;
      }
    }
  }

  /** The run completes exactly when every file can be read. */
  lemma {:induction false} FileRunsComplete(env: Env, migrations: seq<Entry>)
    ensures FileRuns(env, migrations).1.Pass? <==> forall i :: 0 <= i < |migrations| ==> migrations[i].1 in env.contents
  {
    if migrations != [] {
      if migrations[0].1 in env.contents {
        var tail := migrations[1..];
        FileRunsComplete(env, tail);
        assert forall i :: 1 <= i < |migrations| ==> tail[i - 1] == migrations[i];
      } else {
        assert !(migrations[0].1 in env.contents);
      }
    }
  }

  /** The files from position `i` on: the `i`-th, then the rest. */
  lemma FileRunsStep(env: Env, migrations: seq<Entry>, i: nat)
    requires i < |migrations|
    ensures FileRuns(env, migrations[i..])
         == if migrations[i].1 !in env.contents then ([], Fail(TypeError(UnreadableFile)))
            else var rest := FileRuns(env, migrations[i + 1..]);
                 (Queries(Explode(Trim(env.contents[migrations[i].1]), '\n')) + rest.0, rest.1)
  {
    assert migrations[i..][0] == migrations[i] && migrations[i..][1..] == migrations[i + 1..];
  }

  /** Files run in order: the second group runs after the first, and only
      when every file of the first could be read. */
  lemma {:induction false} FileRunsConcat(env: Env, first: seq<Entry>, second: seq<Entry>)
    ensures FileRuns(env, first + second)
         == if FileRuns(env, first).1.Fail? then FileRuns(env, first)
            else (FileRuns(env, first).0 + FileRuns(env, second).0, FileRuns(env, second).1)
  {
    if first == [] {
      assert first + second == second;
      assert FileRuns(env, first).0 + FileRuns(env, second).0 == FileRuns(env, second).0;
    } else {
      assert (first + second)[0] == first[0] && (first + second)[1..] == first[1..] + second;
      FileRunsConcat(env, first[1..], second);
      if first[0].1 in env.contents {
        TraceSplit(Queries(Statements(env.contents[first[0].1])), FileRuns(env, first[1..]).0, FileRuns(env, second).0);
      }
    }
  }

  /** Actions recorded in two steps make one trace. */
  lemma TraceSplit(before: seq<Action>, done: seq<Action>, rest: seq<Action>)
    ensures before + (done + rest) == (before + done) + rest
  {
  }

  /** A trace that extends an extension of `a` extends `a`. */
  lemma TracePrefix(a: seq<Action>, b: seq<Action>, c: seq<Action>)
    requires a <= b && b <= c
    ensures a <= c
  {
  }

  /** One more statement executed. */
  lemma QueriesSnoc(lines: seq<string>, j: nat)
    requires j < |lines|
    ensures Queries(lines[..j + 1]) == Queries(lines[..j]) + [Query(lines[j])]
  {
    assert Queries(lines[..j + 1])[..j] == Queries(lines[..j]);
  }

  /** What the container throws when `doctrine_migrations.namespace` is not
      defined. */
  const MissingNamespace := "You have requested a non-existent parameter \"doctrine_migrations.namespace\"."

  /** The Doctrine migrations run: the namespace parameter is defined and
      truthy. */
  predicate MigrateConfigured(env: Env) {
    env.migrationsNamespace.Some? && Truthy(env.migrationsNamespace.value)
  }

  /** `runMigrations`: nothing without migrations; otherwise the namespace
      parameter is read (which throws when it is not defined), the Doctrine
      migrations run first when it is truthy, then the statements of every
      file. */
  function MigrationRun(env: Env, migrations: seq<Entry>): (r: (seq<Action>, Outcome<Error>))
    ensures migrations == [] ==> r == ([], Pass)
    ensures migrations != [] && env.migrationsNamespace.None? ==> r == ([], Fail(InvalidArgument(MissingNamespace)))
    ensures migrations != [] && env.migrationsNamespace.Some? ==> r.1 == FileRuns(env, migrations).1
  {
    if migrations == [] then ([], Pass)
    else if env.migrationsNamespace.None? then ([], Fail(InvalidArgument(MissingNamespace)))
    else
      var files := FileRuns(env, migrations);
      ((if Truthy(env.migrationsNamespace.value) then [Migrate] else []) + files.0, files.1)
  }

  /** Migrations run only the Doctrine migrations and statements. */
  lemma MigrationRunStatements(env: Env, migrations: seq<Entry>)
    ensures AllStatements(MigrationRun(env, migrations).0)
  {
    var run := MigrationRun(env, migrations).0;
    if migrations != [] && env.migrationsNamespace.Some? {
      var files := FileRuns(env, migrations).0;
      FileRunsQueries(env, migrations);
      if Truthy(env.migrationsNamespace.value) {
        assert run == [Migrate] + files;
        forall i | 0 <= i < |run| ensures run[i].Query? || run[i].Migrate? {
          if i > 0 {
            assert run[i] == files[i - 1];
          }
        }
      } else {
        assert run == files;
      }
    }
  }

  /** The Doctrine migrations run exactly when there are files and a
      truthy namespace. */
  lemma MigrationRunMigrates(env: Env, migrations: seq<Entry>)
    ensures Migrate in MigrationRun(env, migrations).0 <==> migrations != [] && MigrateConfigured(env)
  {
    var run := MigrationRun(env, migrations).0;
    if migrations != [] && env.migrationsNamespace.Some? {
      var files := FileRuns(env, migrations).0;
      FileRunsQueries(env, migrations);
      if Truthy(env.migrationsNamespace.value) {
        assert run[0] == Migrate;
      } else {
        assert run == files;
      }
    }
  }

  function Repeat(actions: seq<Action>, n: nat): seq<Action>
  {
    if n == 0 then [] else actions + Repeat(actions, n - 1)
  }

  /** Each repetition holds only the repeated actions. */
  lemma {:induction false} RepeatItems(actions: seq<Action>, n: nat)
    ensures forall i :: 0 <= i < |Repeat(actions, n)| ==> Repeat(actions, n)[i] in actions
  {
    if n > 0 {
      var rest := Repeat(actions, n - 1);
      RepeatItems(actions, n - 1);
      forall i | 0 <= i < |actions + rest| ensures (actions + rest)[i] in actions {
        if i >= |actions| {
          assert (actions + rest)[i] == rest[i - |actions|];
        }
      }
    }
  }

  /** One more listener handles the event. */
  lemma {:induction false} RepeatSnoc(actions: seq<Action>, n: nat)
    ensures Repeat(actions, n + 1) == Repeat(actions, n) + actions
  {
    if n > 0 {
      RepeatSnoc(actions, n - 1);
    }
  }

  /** `dispatchEvent`: the event, then each subscribed platform listener
      handling it; the fixture service always passes an entity manager. */
  function DispatchRun(e: TruncateEvent, subscribers: nat, platform: Platform): (acts: seq<Action>)
    ensures |acts| >= 1 && acts[0] == Dispatch(EventName(e))
  {
    [Dispatch(EventName(e))] + Repeat(Effect(e, true, platform).value, subscribers)
  }

  /** After the event itself, only the listeners' foreign-key statements. */
  lemma DispatchRunShape(e: TruncateEvent, subscribers: nat, platform: Platform)
    ensures var acts := DispatchRun(e, subscribers, platform);
      forall i :: 1 <= i < |acts| ==> acts[i] == Exec(ForeignKeyChecks(e))
  {
    var effect := Effect(e, true, platform).value;
    var listeners := Repeat(effect, subscribers);
    RepeatItems(effect, subscribers);
    var acts := [Dispatch(EventName(e))] + listeners;
    forall i | 1 <= i < |acts| ensures acts[i] == Exec(ForeignKeyChecks(e)) {
      assert acts[i] == listeners[i - 1];
    }
  }

  /** The message of the TypeError `dispatchEvent` throws when the manager is
      not an ORM entity manager (or was never fetched). */
  const NotAnEntityManager := "dispatchEvent(): Argument #1 ($em) must be of type Doctrine\\ORM\\EntityManager"

  /** The fixtures given to the executor, or the TypeError it throws for
      class names. */
  function Executed(fixtures: FixtureList): (r: Result<seq<string>, Error>)
    ensures r.Success? <==> fixtures.Instances? || fixtures.names == []
  {
    match fixtures
    case Instances(classes) => Success(classes)
    case ClassNames(names) =>
      if names == [] then Success([])
      else Failure(TypeError("ORMExecutor::load(): Argument #2 ($fixture) must be of type FixtureInterface, string given"))
  }

  /** `loadFixtures`: the actions performed and whether it threw. */
  function LoadRun(env: Env, useBackup: bool, managerBound: bool, subscribers: nat,
                   migrations: seq<Entry>, fixtures: FixtureList): (seq<Action>, Outcome<Error>)
  {
    if !managerBound || !env.ormManager then ([], Fail(TypeError(NotAnEntityManager)))
    else
      var platform := env.connection.platform;
      var start := DispatchRun(PreTruncate, subscribers, platform)
                   + (if useBackup then [] else [Purge]);
      var mig := MigrationRun(env, migrations);
      if mig.1.Fail? then (start + mig.0, mig.1)
      else
        var exec := Executed(fixtures);
        if exec.Failure? then (start + mig.0, Fail(exec.error))
        else (start + mig.0 + [Execute(exec.value)] + DispatchRun(PostTruncate, subscribers, platform), Pass)
  }

  /** `preTruncate` is dispatched first and `postTruncate` after everything
      but its own listeners. */
  lemma LoadRunBracketed(env: Env, useBackup: bool, managerBound: bool, subscribers: nat,
                         migrations: seq<Entry>, fixtures: FixtureList)
    requires LoadRun(env, useBackup, managerBound, subscribers, migrations, fixtures).1.Pass?
    ensures var acts := LoadRun(env, useBackup, managerBound, subscribers, migrations, fixtures).0;
      && acts[0] == Dispatch("preTruncate")
      && exists k :: 0 <= k < |acts| && acts[k] == Dispatch("postTruncate")
                     && forall j :: k < j < |acts| ==> acts[j] == Exec("SET foreign_key_checks = 1;")
  {
    var platform := env.connection.platform;
    LoadRunParts(env, useBackup, managerBound, subscribers, migrations, fixtures);
    PassedParts(env, useBackup, managerBound, subscribers, migrations, fixtures);
    var pre := DispatchRun(PreTruncate, subscribers, platform);
    var post := DispatchRun(PostTruncate, subscribers, platform);
    DispatchRunShape(PostTruncate, subscribers, platform);
    Bracketed(RunFront(env, useBackup, managerBound, subscribers), RunMigrations(env, managerBound, migrations),
              RunRest(env, managerBound, subscribers, migrations, fixtures), pre, post);
  }

  /** A run that passes went all the way through: the pre-truncation
      dispatch opens it and the post-truncation dispatch follows the execution. */
  lemma PassedParts(env: Env, useBackup: bool, managerBound: bool, subscribers: nat,
                    migrations: seq<Entry>, fixtures: FixtureList)
    requires LoadRun(env, useBackup, managerBound, subscribers, migrations, fixtures).1.Pass?
    ensures var platform := env.connection.platform;
      && RunFront(env, useBackup, managerBound, subscribers)
         == DispatchRun(PreTruncate, subscribers, platform) + (if useBackup then [] else [Purge])
      && Executed(fixtures).Success?
      && RunRest(env, managerBound, subscribers, migrations, fixtures)
         == [Execute(Executed(fixtures).value)] + DispatchRun(PostTruncate, subscribers, platform)
  {
    assert managerBound && env.ormManager;
    assert MigrationRun(env, migrations).1.Pass?;
  }

  /** The bracketing read off the parts of a run. */
  lemma Bracketed(front: seq<Action>, mig: seq<Action>, rest: seq<Action>, pre: seq<Action>, post: seq<Action>)
    requires |pre| >= 1 && pre[0] == Dispatch("preTruncate") && |front| >= |pre| && front[..|pre|] == pre
    requires |rest| >= 1 && rest[1..] == post && |post| >= 1 && post[0] == Dispatch("postTruncate")
    requires forall i :: 1 <= i < |post| ==> post[i] == Exec("SET foreign_key_checks = 1;")
    ensures var acts := front + mig + rest;
      && acts[0] == Dispatch("preTruncate")
      && exists k :: 0 <= k < |acts| && acts[k] == Dispatch("postTruncate")
                     && forall j :: k < j < |acts| ==> acts[j] == Exec("SET foreign_key_checks = 1;")
  {
    var acts := front + mig + rest;
    var k := |front + mig| + 1;
    SuffixAfter(front + mig, rest);
    assert acts[0] == front[0] == pre[0];
    forall j | k < j < |acts| ensures acts[j] == Exec("SET foreign_key_checks = 1;") {
      assert acts[j] == post[j - k];
    }
  }

  lemma SuffixAfter(a: seq<Action>, rest: seq<Action>)
    requires rest != []
    ensures (a + rest)[|a|] == rest[0]
    ensures (a + rest)[|a| + 1..] == rest[1..]
  {
  }


  /** The tables are purged exactly when backups are off. */
  lemma PurgeOnlyWithoutBackup(env: Env, useBackup: bool, managerBound: bool, subscribers: nat,
                               migrations: seq<Entry>, fixtures: FixtureList)
    requires LoadRun(env, useBackup, managerBound, subscribers, migrations, fixtures).1.Pass?
    ensures Purge in LoadRun(env, useBackup, managerBound, subscribers, migrations, fixtures).0 <==> !useBackup
  {
    var platform := env.connection.platform;
    LoadRunParts(env, useBackup, managerBound, subscribers, migrations, fixtures);
    PassedParts(env, useBackup, managerBound, subscribers, migrations, fixtures);
    var front := RunFront(env, useBackup, managerBound, subscribers);
    var mig := RunMigrations(env, managerBound, migrations);
    var rest := RunRest(env, managerBound, subscribers, migrations, fixtures);
    var pre := DispatchRun(PreTruncate, subscribers, platform);
    if useBackup {
      DispatchNoPurge(PreTruncate, subscribers, platform);
      DispatchNoPurge(PostTruncate, subscribers, platform);
      MigrationRunStatements(env, migrations);
      assert front == pre;
      NoPurgeConcat([Execute(Executed(fixtures).value)], DispatchRun(PostTruncate, subscribers, platform));
      NoPurgeConcat(front, mig);
      NoPurgeConcat(front + mig, rest);
    } else {
      assert front == pre + [Purge];
      assert (front + mig + rest)[|pre|] == Purge;
    }
  }

  /** A dispatch records its event and foreign-key statements, never a purge. */
  lemma DispatchNoPurge(e: TruncateEvent, subscribers: nat, platform: Platform)
    ensures NoPurge(DispatchRun(e, subscribers, platform))
  {
    var acts := DispatchRun(e, subscribers, platform);
    DispatchRunShape(e, subscribers, platform);
    forall i | 0 <= i < |acts| ensures acts[i] != Purge {
      if i > 0 {
        assert acts[i] == Exec(ForeignKeyChecks(e));
      }
    }
  }

  /** No purge among the actions. */
  predicate NoPurge(acts: seq<Action>) {
    forall i :: 0 <= i < |acts| ==> acts[i] != Purge
  }

  lemma NoPurgeConcat(a: seq<Action>, b: seq<Action>)
    requires NoPurge(a) && (NoPurge(b) || AllStatements(b))
    ensures NoPurge(a + b) && Purge !in a + b
  {
    forall i | |a| <= i < |a + b| ensures (a + b)[i] != Purge {
      assert (a + b)[i] == b[i - |a|];
    }
  }

  predicate Bookkeeping(a: Action) {
    !a.Query? && !a.Migrate? && !a.Execute?
  }

  /** In `front + mig + rest`, where `rest` is empty or an execution
      followed by bookkeeping, every statement of `mig` comes before the
      execution. */
  lemma StatementsFirst(front: seq<Action>, mig: seq<Action>, rest: seq<Action>, i: nat, j: nat)
    requires forall k :: 0 <= k < |front| ==> Bookkeeping(front[k])
    requires AllStatements(mig)
    requires rest == [] || (rest[0].Execute? && forall k :: 1 <= k < |rest| ==> Bookkeeping(rest[k]))
    requires var acts := front + mig + rest;
      i < |acts| && j < |acts| && (acts[i].Query? || acts[i].Migrate?) && acts[j].Execute?
    ensures i < j
  {
    var acts := front + mig + rest;
    var e := |front + mig|;
    forall x | 0 <= x < |acts|
      ensures (x < e ==> !acts[x].Execute?) && (x != e && !(x < e && x >= |front|) ==> Bookkeeping(acts[x]))
    {
      if x < |front| {
        assert acts[x] == front[x];
      } else if x < e {
        assert acts[x] == mig[x - |front|];
      } else if x > e {
        assert acts[x] == rest[x - e];
      }
    }
    if e < |acts| {
      assert acts[e] == rest[0];
    }
  }

  /** What `loadFixtures` does before its migrations. */
  function RunFront(env: Env, useBackup: bool, managerBound: bool, subscribers: nat): seq<Action>
  {
    if !managerBound || !env.ormManager then []
    else DispatchRun(PreTruncate, subscribers, env.connection.platform) + (if useBackup then [] else [Purge])
  }

  /** Its migrations. */
  function RunMigrations(env: Env, managerBound: bool, migrations: seq<Entry>): seq<Action>
  {
    if !managerBound || !env.ormManager then [] else MigrationRun(env, migrations).0
  }

  /** The execution of the fixtures and what follows it, when it gets there. */
  function RunRest(env: Env, managerBound: bool, subscribers: nat,
                   migrations: seq<Entry>, fixtures: FixtureList): seq<Action>
  {
    if !managerBound || !env.ormManager || MigrationRun(env, migrations).1.Fail? || Executed(fixtures).Failure? then []
    else [Execute(Executed(fixtures).value)] + DispatchRun(PostTruncate, subscribers, env.connection.platform)
  }

  /** The front is bookkeeping, the migrations are statements, and the rest
      is the execution followed by bookkeeping. */
  lemma RunPartsShape(env: Env, useBackup: bool, managerBound: bool, subscribers: nat,
                      migrations: seq<Entry>, fixtures: FixtureList)
    ensures var front := RunFront(env, useBackup, managerBound, subscribers);
      forall k :: 0 <= k < |front| ==> Bookkeeping(front[k])
    ensures AllStatements(RunMigrations(env, managerBound, migrations))
    ensures var rest := RunRest(env, managerBound, subscribers, migrations, fixtures);
      rest == [] || (rest[0].Execute? && forall k :: 1 <= k < |rest| ==> Bookkeeping(rest[k]))
  {
    FrontShape(env, useBackup, managerBound, subscribers);
    MigrationRunStatements(env, migrations);
    RestShape(env, managerBound, subscribers, migrations, fixtures);
  }

  lemma FrontShape(env: Env, useBackup: bool, managerBound: bool, subscribers: nat)
    ensures var front := RunFront(env, useBackup, managerBound, subscribers);
      forall k :: 0 <= k < |front| ==> Bookkeeping(front[k])
  {
    var front := RunFront(env, useBackup, managerBound, subscribers);
    if front != [] {
      var pre := DispatchRun(PreTruncate, subscribers, env.connection.platform);
      DispatchRunShape(PreTruncate, subscribers, env.connection.platform);
      forall k | 0 <= k < |front| ensures Bookkeeping(front[k]) {
        if k < |pre| {
          assert front[k] == pre[k];
        }
      }
    }
  }

  lemma RestShape(env: Env, managerBound: bool, subscribers: nat, migrations: seq<Entry>, fixtures: FixtureList)
    ensures var rest := RunRest(env, managerBound, subscribers, migrations, fixtures);
      rest == [] || (rest[0].Execute? && forall k :: 1 <= k < |rest| ==> Bookkeeping(rest[k]))
  {
    var rest := RunRest(env, managerBound, subscribers, migrations, fixtures);
    if rest != [] {
      var post := DispatchRun(PostTruncate, subscribers, env.connection.platform);
      DispatchRunShape(PostTruncate, subscribers, env.connection.platform);
      forall k | 1 <= k < |rest| ensures Bookkeeping(rest[k]) {
        assert rest[k] == post[k - 1];
      }
    }
  }

  /** The actions of `loadFixtures` are the three parts in order. */
  lemma LoadRunParts(env: Env, useBackup: bool, managerBound: bool, subscribers: nat,
                     migrations: seq<Entry>, fixtures: FixtureList)
    ensures LoadRun(env, useBackup, managerBound, subscribers, migrations, fixtures).0
         == RunFront(env, useBackup, managerBound, subscribers) + RunMigrations(env, managerBound, migrations)
            + RunRest(env, managerBound, subscribers, migrations, fixtures)
  {
    var front := RunFront(env, useBackup, managerBound, subscribers);
    var mig := RunMigrations(env, managerBound, migrations);
    var rest := RunRest(env, managerBound, subscribers, migrations, fixtures);
    var acts := LoadRun(env, useBackup, managerBound, subscribers, migrations, fixtures).0;
    if !managerBound || !env.ormManager {
      assert acts == [] && front == [] && mig == [] && rest == [];
    } else {
      var m := MigrationRun(env, migrations);
      assert mig == m.0;
      if m.1.Fail? || Executed(fixtures).Failure? {
        assert acts == front + mig && rest == [];
        TraceSplit(front, mig, []);
      } else {
        var exec := [Execute(Executed(fixtures).value)];
        var post := DispatchRun(PostTruncate, subscribers, env.connection.platform);
        assert acts == front + mig + exec + post;
        assert rest == exec + post;
        TraceSplit(front + mig, exec, post);
      }
    }
  }

  /** Every migration statement runs before the fixtures are executed. */
  lemma MigrationsBeforeFixtures(env: Env, useBackup: bool, managerBound: bool, subscribers: nat,
                                 migrations: seq<Entry>, fixtures: FixtureList, i: nat, j: nat)
    requires var acts := LoadRun(env, useBackup, managerBound, subscribers, migrations, fixtures).0;
      i < |acts| && j < |acts| && (acts[i].Query? || acts[i].Migrate?) && acts[j].Execute?
    ensures i < j
  {
    LoadRunParts(env, useBackup, managerBound, subscribers, migrations, fixtures);
    RunPartsShape(env, useBackup, managerBound, subscribers, migrations, fixtures);
    StatementsFirst(RunFront(env, useBackup, managerBound, subscribers), RunMigrations(env, managerBound, migrations),
                    RunRest(env, managerBound, subscribers, migrations, fixtures), i, j);
  }

}
