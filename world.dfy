/** What the extension sees of the world around it: the PHP errors it
    raises, the database connection, the kernel and filesystem as read-only
    facts, and a host that records every side effect in order. */
module World {
  import opened Wrappers

  /** What a failing operation throws. */
  datatype Error =
    | RuntimeException(message: string)
    /** A value of the wrong type passed where strict typing forbids it. */
    | TypeError(message: string)
    | InvalidArgument(message: string)
    /** `new $className()` for a class that does not exist. */
    | ClassNotFound(name: string)
    /** A method called on a field that has not been set yet. */
    | NullReference(field: string)

  /** A connection parameter as DBAL hands it over: a string, an integer
      (a port parsed from a URL), or null. */
  datatype ParamValue = Text(text: string) | Number(number: int) | Null

  /** The database platform: its name (`getName()`) and whether it is one of
      the MySQL platform classes. */
  datatype Platform = Platform(name: string, isMySql: bool)

  datatype Connection = Connection(
    platform: Platform,
    database: string,
    params: map<string, ParamValue>)

  /** PHP `isset($params[$key])`: present and not null. */
  predicate IsSet(params: map<string, ParamValue>, key: string) {
    key in params && !params[key].Null?
  }

  /** A fixture class: the file that declares it and the classes it returns
      from `getDependencies()` (none for a fixture without dependencies). */
  datatype FixtureClass = FixtureClass(file: string, dependencies: seq<string>)

  /** The outcome of running a shell command. */
  datatype ProcessResult = ProcessResult(successful: bool, errorOutput: string)

  /** What is serialized and hashed: the migration map with its keys, and the
      sorted fixture descriptors. */
  datatype HashInput = HashInput(migrations: seq<(string, string)>, fixtures: seq<string>)

  /** The read-only surroundings of one test run. */
  datatype Env = Env(
    /** `kernel.cache_dir` */
    cacheDir: string,
    /** `getPath()` of every kernel bundle, in kernel order */
    bundlePaths: seq<string>,
    /** the paths `is_dir` accepts */
    directories: set<string>,
    /** every fixture class the autoloader can find, by name without a leading `\` */
    classes: map<string, FixtureClass>,
    /** the fixture classes a Doctrine loader finds in a directory */
    directoryFixtures: map<string, seq<string>>,
    /** `glob($pattern)`: the matching paths, in glob's order */
    glob: string -> seq<string>,
    /** `filemtime` of the files that exist */
    mtime: map<string, nat>,
    /** `file_get_contents` of the files that can be read */
    contents: map<string, string>,
    /** what running a shell command reports */
    run: string -> ProcessResult,
    /** `sha1(serialize(...))` */
    sha1: HashInput -> string,
    /** `version_compare($a, $b) <= 0` */
    versionLe: (string, string) -> bool,
    /** `doctrine_migrations.namespace`, absent when the container does not
        define the parameter (the migrations bundle is not registered) */
    migrationsNamespace: Option<string>,
    /** whether the entity manager's metadata factory has a cache driver */
    metadataCache: bool,
    /** whether the `doctrine` manager is an ORM `EntityManager` */
    ormManager: bool,
    connection: Connection)

  /** One side effect on the database, the ORM or the shell. */
  datatype Action =
    /** a platform listener subscribed to the entity manager's events */
    | Subscribe
    | Dispatch(event: string)
    /** `Connection::exec` */
    | Exec(sql: string)
    /** `Connection::executeQuery` */
    | Query(sql: string)
    /** doctrine/migrations brought to its latest version */
    | Migrate
    | Purge
    | Execute(fixtures: seq<string>)
    | DropDatabase
    | CreateSchema
    | Run(command: string)
    | LoadReferences(file: string)
    | SaveReferences(file: string)
    | FlushManager
    | ClearManager
    | ClearMetadataCache

  /** The mutable part of the world: the files that exist, the PHP classes
      declared so far, the listeners subscribed to the entity manager, and
      the log of every side effect. */
  class Host {
    var files: set<string>
    var declared: set<string>
    var subscribers: nat
    var log: seq<Action>

    constructor(files: set<string>, declared: set<string>)
      ensures this.files == files && this.declared == declared
      ensures subscribers == 0 && log == []
    {
      this.files := files;
      this.declared := declared;
      subscribers := 0;
      log := [];
    }

    method Record(a: Action)
      modifies this`log
      ensures log == old(log) + [a]
      ensures files == old(files) && declared == old(declared) && subscribers == old(subscribers)
    {
      log := log + [a];
    }

    /** A listener subscribed to the entity manager's events. */
    method AddSubscriber()
      modifies this`subscribers
      ensures subscribers == old(subscribers) + 1
    {
      subscribers := subscribers + 1;
    }

    /** Classes become declared when PHP loads their files. */
    method Declare(classes: set<string>)
      modifies this`declared
      ensures declared == old(declared) + classes
    {
      declared := declared + classes;
    }
  }

  /** The outcome of running `command`: a failed process throws its error output. */
  function RunOutcome(env: Env, command: string): (r: Outcome<Error>)
    ensures r.Pass? <==> env.run(command).successful
    ensures r.Fail? ==> r.error == RuntimeException(env.run(command).errorOutput)
  {
    var p := env.run(command);
    if p.successful then Pass else Fail(RuntimeException(p.errorOutput))
  }

  /** `runCommand`: the command is run and a failure is thrown. */
  method RunCommand(env: Env, host: Host, command: string) returns (r: Outcome<Error>)
    modifies host
    ensures host.log == old(host.log) + [Run(command)]
    ensures host.files == old(host.files) && host.declared == old(host.declared)
    ensures host.subscribers == old(host.subscribers)
    ensures r == RunOutcome(env, command)
  {
    host.Record(Run(command));
    var p := env.run(command);
    if !p.successful {
      return Fail(RuntimeException(p.errorOutput));
    }
    return Pass;
  }
}
