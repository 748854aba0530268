/** `BackupService`: the platform-name-to-strategy registry, the naming of
    backup files in the cache directory, and the dispatch of create and
    restore to the strategy registered for the connection's platform. */
module Registry {
  import opened Wrappers
  import opened World
  import opened Backups

  /** The map as `setPlatformBackup` sees it: an unset field acts as an empty array. */
  function Registered(m: Option<map<string, Backup>>): map<string, Backup> {
    if m.Some? then m.value else map[]
  }

  /** `getPlatformBackup`: the strategy registered under `name`. Before any
      registration the `array` return type of `getPlatformBackupMap` rejects
      the unset field, so the lookup throws a TypeError first. */
  function Lookup(m: Option<map<string, Backup>>, name: string): (r: Result<Backup, Error>)
    ensures m.None? ==> r.Failure? && r.error.TypeError?
    ensures m.Some? && name in m.value ==> r == Success(m.value[name])
    ensures m.Some? && name !in m.value ==> r == Failure(RuntimeException("Unsupported platform " + name))
  {
    match m
    case None => Failure(TypeError("getPlatformBackupMap(): Return value must be of type array, null returned"))
    case Some(entries) =>
      if name in entries then Success(entries[name])
      else Failure(RuntimeException("Unsupported platform " + name))
  }

  /** The entries registered one after another, later ones overriding. */
  function RegisterAll(m: map<string, Backup>, entries: seq<(string, Backup)>): map<string, Backup>
  {
    if entries == [] then m
    else
      var last := entries[|entries| - 1];
      RegisterAll(m, entries[..|entries| - 1])[last.0 := last.1]
  }

  /** The position of the last entry for `name`, or -1 when there is none. */
  function LastIndex(entries: seq<(string, Backup)>, name: string): (k: int)
    ensures -1 <= k < |entries|
    ensures k >= 0 ==> entries[k].0 == name
    ensures forall j :: k < j < |entries| ==> entries[j].0 != name
  {
    if entries == [] then -1
    else if entries[|entries| - 1].0 == name then |entries| - 1
    else LastIndex(entries[..|entries| - 1], name)
  }

  /** The value of the last entry for `name`, if there is one. */
  function LastFor(entries: seq<(string, Backup)>, name: string): (r: Option<Backup>)
    ensures r.None? <==> forall i :: 0 <= i < |entries| ==> entries[i].0 != name
    ensures r.Some? ==> exists i :: 0 <= i < |entries| && entries[i] == (name, r.value)
                                 && forall j :: i < j < |entries| ==> entries[j].0 != name
  {
    var k := LastIndex(entries, name);
    if k < 0 then None
    else
      assert entries[k] == (name, entries[k].1);
      Some(entries[k].1)
  }

  /** After a bulk registration, a name maps to its last entry, and a name
      without entries keeps what it had. */
  lemma {:induction false} RegisterAllLookup(m: map<string, Backup>, entries: seq<(string, Backup)>, name: string)
    ensures LastFor(entries, name).Some? ==>
              name in RegisterAll(m, entries) && RegisterAll(m, entries)[name] == LastFor(entries, name).value
    ensures LastFor(entries, name).None? ==>
              (name in RegisterAll(m, entries) <==> name in m)
              && (name in m ==> RegisterAll(m, entries)[name] == m[name])
  {
    if entries != [] {
      RegisterAllLookup(m, entries[..|entries| - 1], name);
    }
  }

  /** `setPlatformBackup(n, b)` makes `b` the strategy for `n` and leaves
      every other registered name as it was. */
  lemma LookupAfterRegister(m: Option<map<string, Backup>>, n: string, b: Backup, k: string)
    ensures Lookup(Some(Registered(m)[n := b]), k)
         == if k == n then Success(b)
            else if m.Some? && k in m.value then Success(m.value[k])
            else Failure(RuntimeException("Unsupported platform " + k))
  {
  }

  /** `cacheDir . DIRECTORY_SEPARATOR . 'test_' . hash` with `/` as separator. */
  function BackupPath(cacheDir: string, hash: string): (path: string)
    ensures |path| == |cacheDir| + 6 + |hash|
    ensures path[..|cacheDir|] == cacheDir && path[|cacheDir|..|cacheDir| + 6] == "/test_"
    ensures path[|cacheDir| + 6..] == hash
  {
    cacheDir + "/" + "test_" + hash
  }

  /** Within one cache directory, distinct hashes name distinct backup files. */
  lemma BackupPathInjective(cacheDir: string, h1: string, h2: string)
    requires BackupPath(cacheDir, h1) == BackupPath(cacheDir, h2)
    ensures h1 == h2
  {
    assert h1 == BackupPath(cacheDir, h1)[|cacheDir| + 6..];
  }

  /** The cache directory as PHP concatenates it: an unset one as empty text. */
  function DirText(cacheDir: Option<string>): string {
    if cacheDir.Some? then cacheDir.value else ""
  }

  class BackupService {
    var cacheDir: Option<string>
    var platformBackupMap: Option<map<string, Backup>>

    constructor()
      ensures cacheDir == None && platformBackupMap == None
    {
      cacheDir := None;
      platformBackupMap := None;
    }

    method SetCacheDir(dir: string)
      modifies this
      ensures cacheDir == Some(dir) && platformBackupMap == old(platformBackupMap)
    {
      cacheDir := Some(dir);
    }

    method SetPlatformBackup(name: string, backup: Backup)
      modifies this
      ensures platformBackupMap == Some(Registered(old(platformBackupMap))[name := backup])
      ensures cacheDir == old(cacheDir)
    {
      platformBackupMap := Some(Registered(platformBackupMap)[name := backup]);
    }

    /** Registers every entry, in order, as `setPlatformBackup` does; an empty
        array leaves an unset map unset. */
    method SetPlatformBackupMap(entries: seq<(string, Backup)>)
      modifies this
      ensures platformBackupMap
           == if entries == [] then old(platformBackupMap)
              else Some(RegisterAll(Registered(old(platformBackupMap)), entries))
      ensures cacheDir == old(cacheDir)
    {
      ghost var start := Registered(platformBackupMap);
      var i := 0;
      while i < |entries|
        invariant 0 <= i <= |entries|
        invariant platformBackupMap
               == if i == 0 then old(platformBackupMap) else Some(RegisterAll(start, entries[..i]))
        invariant cacheDir == old(cacheDir)
      {
        assert entries[..i + 1][..i] == entries[..i];
        SetPlatformBackup(entries[i].0, entries[i].1);
        i := i + 1;
      }
      assert entries[..i] == entries;
    }

    function GetPlatformBackupMap(): (r: Result<map<string, Backup>, Error>)
      reads this
      ensures r.Success? <==> platformBackupMap.Some?
      ensures r.Success? ==> r.value == platformBackupMap.value
    {
      if platformBackupMap.Some? then Success(platformBackupMap.value)
      else Failure(TypeError("getPlatformBackupMap(): Return value must be of type array, null returned"))
    }

    function GetPlatformBackup(name: string): Result<Backup, Error>
      reads this
    {
      Lookup(platformBackupMap, name)
    }

    function GetBackupFile(hash: string): string
      reads this
    {
      BackupPath(DirText(cacheDir), hash)
    }

    predicate HasBackup(hash: string, host: Host)
      reads this, host
    {
      GetBackupFile(hash) in host.files
    }

    /** The registered strategies whose configuration can change. */
    function Strategies(): set<object>
      reads this
    {
      if platformBackupMap.None? then {}
      else set n | n in platformBackupMap.value && platformBackupMap.value[n].Mysql? :: platformBackupMap.value[n].mysql
    }

    /** The command `createBackup` runs for `hash` on `connection`, or what
        it throws before running one. */
    function DumpCommand(connection: Connection, hash: string): Result<string, Error>
      reads this, Strategies()
    {
      var b := GetPlatformBackup(connection.platform.name);
      if b.Failure? then Failure(b.error)
      else b.value.CreatePlan(connection.database, GetBackupFile(hash), connection.params)
    }

    /** The command `restoreBackup` runs for `hash` on `connection`, or what
        it throws before running one. */
    function RestoreCommand(connection: Connection, hash: string): Result<string, Error>
      reads this, Strategies()
    {
      var b := GetPlatformBackup(connection.platform.name);
      if b.Failure? then Failure(b.error)
      else b.value.RestorePlan(connection.database, GetBackupFile(hash), connection.params)
    }

    /** Dumps the connection's database into the backup file for `hash`,
        with the strategy registered for the connection's platform. */
    method CreateBackup(connection: Connection, hash: string, env: Env, host: Host) returns (r: Outcome<Error>)
      modifies host
      ensures var b := GetPlatformBackup(connection.platform.name);
        && (b.Failure? ==> r == Fail(b.error) && host.log == old(host.log) && host.files == old(host.files))
        && (b.Success? ==>
              var plan := b.value.CreatePlan(connection.database, GetBackupFile(hash), connection.params);
              && (plan.Failure? ==> r == Fail(plan.error) && host.log == old(host.log) && host.files == old(host.files))
              && (plan.Success? ==> r == RunOutcome(env, plan.value)
                                    && host.log == old(host.log) + [Run(plan.value)]
                                    && host.files == old(host.files) + {GetBackupFile(hash)}))
      ensures host.declared == old(host.declared) && host.subscribers == old(host.subscribers)
      ensures r.Pass? ==> HasBackup(hash, host)
      ensures r.Pass? ==> DumpCommand(connection, hash).Success?
                          && host.log == old(host.log) + [Run(DumpCommand(connection, hash).value)]
    {
      var filename := GetBackupFile(hash);
      var backup := GetPlatformBackup(connection.platform.name);
      if backup.Failure? {
        return Fail(backup.error);
      }
      r := backup.value.Create(connection.database, filename, connection.params, env, host);
    }

    /** Restores the connection's database from the backup file for `hash`. */
    method RestoreBackup(connection: Connection, hash: string, env: Env, host: Host) returns (r: Outcome<Error>)
      modifies host
      ensures var b := GetPlatformBackup(connection.platform.name);
        && (b.Failure? ==> r == Fail(b.error) && host.log == old(host.log))
        && (b.Success? ==>
              var plan := b.value.RestorePlan(connection.database, GetBackupFile(hash), connection.params);
              && (plan.Failure? ==> r == Fail(plan.error) && host.log == old(host.log))
              && (plan.Success? ==> r == RunOutcome(env, plan.value) && host.log == old(host.log) + [Run(plan.value)]))
      ensures host.files == old(host.files)
      ensures host.declared == old(host.declared) && host.subscribers == old(host.subscribers)
      ensures r.Pass? ==> old(RestoreCommand(connection, hash)).Success?
                          && host.log == old(host.log) + [Run(old(RestoreCommand(connection, hash)).value)]
    {
      var filename := GetBackupFile(hash);
      var backup := GetPlatformBackup(connection.platform.name);
      if backup.Failure? {
        return Fail(backup.error);
      }
      r := backup.value.Restore(connection.database, filename, connection.params, env, host);
    }
  }
}
