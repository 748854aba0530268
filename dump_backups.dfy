/** The two dump strategies behind `BackupInterface`: each turns a database
    name, a backup file and the connection parameters into one shell
    command, runs it, and throws the process's error output when it fails.
    The interface is closed over its two implementations as `Backup`. */
module Backups {
  import opened Wrappers
  import opened Strings
  import opened Shell
  import opened World

  /** A parameter as text where PHP converts loosely (MySqlDumpBackup.php has
      no strict typing): an integer becomes its decimal text. */
  function LooseText(v: ParamValue): string {
    match v
    case Text(s) => s
    case Number(n) => IntToString(n)
    case Null => ""
  }

  /** The loose text of a parameter, empty when it is absent. */
  function ParamText(params: map<string, ParamValue>, key: string): string {
    if key in params then LooseText(params[key]) else ""
  }

  /** `isset($params[$key]) && strlen($params[$key])` under loose typing. */
  predicate Filled(params: map<string, ParamValue>, key: string) {
    IsSet(params, key) && |ParamText(params, key)| > 0
  }

  /** An option appended when `present`, written `<prefix>'<value>'`. */
  function OptionIf(present: bool, prefix: string, value: string): seq<Item> {
    if present then [Arg(prefix, value)] else []
  }

  /** The options the MySQL strategy appends, in the order it appends them. */
  function MysqlOptions(params: map<string, ParamValue>): seq<Item> {
    OptionIf(Filled(params, "host"), "--host=", ParamText(params, "host"))
    + OptionIf(Filled(params, "user"), "--user=", ParamText(params, "user"))
    + OptionIf(Filled(params, "password"), "--password=", ParamText(params, "password"))
    + OptionIf(IsSet(params, "port"), "-P", ParamText(params, "port"))
  }

  /** The arguments `mysqldump` or `mysql` should receive after the database:
      host, user and password when given and non-empty, the port whenever it
      is given, each written as one argument. */
  function MysqlArguments(params: map<string, ParamValue>): seq<string> {
    (if Filled(params, "host") then ["--host=" + ParamText(params, "host")] else [])
    + (if Filled(params, "user") then ["--user=" + ParamText(params, "user")] else [])
    + (if Filled(params, "password") then ["--password=" + ParamText(params, "password")] else [])
    + (if IsSet(params, "port") then ["-P" + ParamText(params, "port")] else [])
  }

  /** `sprintf('%s %s > %s', ...)` (or `<` when restoring). */
  function MysqlHead(bin: string, redirect: string, database: string, file: string): string {
    bin + " " + EscapeShellArg(database) + " " + redirect + " " + EscapeShellArg(file)
  }

  /** The command line: the head followed by the options. */
  function MysqlCommand(bin: string, redirect: string, database: string, file: string,
                        params: map<string, ParamValue>): string
  {
    MysqlHead(bin, redirect, database, file) + ItemsText(MysqlOptions(params))
  }

  lemma ItemsTextCons(it: Item, rest: seq<Item>)
    ensures ItemsText([it] + rest) == ItemText(it) + ItemsText(rest)
  {
    assert ([it] + rest)[0] == it && ([it] + rest)[1..] == rest;
  }

  lemma ItemsTextSnoc(items: seq<Item>, it: Item)
    ensures ItemsText(items + [it]) == ItemsText(items) + ItemText(it)
  {
    ItemsTextConcat(items, [it]);
    ItemsTextCons(it, []);
    assert [it] + [] == [it];
  }

  lemma OptionIfReadable(present: bool, prefix: string, value: string)
    requires AllLiteral(prefix)
    ensures AllReadable(OptionIf(present, prefix, value))
  {
  }

  lemma ReadableConcat(a: seq<Item>, b: seq<Item>)
    requires AllReadable(a) && AllReadable(b)
    ensures AllReadable(a + b)
  {
    forall i | 0 <= i < |a + b| ensures Readable((a + b)[i]) {
      if i < |a| {
        assert (a + b)[i] == a[i];
      } else {
        assert (a + b)[i] == b[i - |a|];
      }
    }
  }

  lemma ItemsWordsConcat(a: seq<Item>, b: seq<Item>)
    ensures ItemsWords(a + b) == ItemsWords(a) + ItemsWords(b)
  {
    assert |ItemsWords(a + b)| == |ItemsWords(a) + ItemsWords(b)|;
    forall i | 0 <= i < |a + b| ensures ItemsWords(a + b)[i] == (ItemsWords(a) + ItemsWords(b))[i] {
      if i < |a| {
        assert (a + b)[i] == a[i];
      } else {
        assert (a + b)[i] == b[i - |a|];
      }
    }
  }

  lemma OptionIfWords(present: bool, prefix: string, value: string)
    ensures ItemsWords(OptionIf(present, prefix, value)) == if present then [prefix + value] else []
  {
  }

  lemma MysqlOptionsReadable(params: map<string, ParamValue>)
    ensures AllReadable(MysqlOptions(params))
  {
    var h := OptionIf(Filled(params, "host"), "--host=", ParamText(params, "host"));
    var u := OptionIf(Filled(params, "user"), "--user=", ParamText(params, "user"));
    var w := OptionIf(Filled(params, "password"), "--password=", ParamText(params, "password"));
    var p := OptionIf(IsSet(params, "port"), "-P", ParamText(params, "port"));
    OptionIfReadable(Filled(params, "host"), "--host=", ParamText(params, "host"));
    OptionIfReadable(Filled(params, "user"), "--user=", ParamText(params, "user"));
    OptionIfReadable(Filled(params, "password"), "--password=", ParamText(params, "password"));
    OptionIfReadable(IsSet(params, "port"), "-P", ParamText(params, "port"));
    ReadableConcat(h, u);
    ReadableConcat(h + u, w);
    ReadableConcat(h + u + w, p);
  }

  /** The options are read back by the shell as exactly the intended arguments. */
  lemma MysqlOptionsWords(params: map<string, ParamValue>)
    ensures ItemsWords(MysqlOptions(params)) == MysqlArguments(params)
  {
    var h := OptionIf(Filled(params, "host"), "--host=", ParamText(params, "host"));
    var u := OptionIf(Filled(params, "user"), "--user=", ParamText(params, "user"));
    var w := OptionIf(Filled(params, "password"), "--password=", ParamText(params, "password"));
    var p := OptionIf(IsSet(params, "port"), "-P", ParamText(params, "port"));
    OptionIfWords(Filled(params, "host"), "--host=", ParamText(params, "host"));
    OptionIfWords(Filled(params, "user"), "--user=", ParamText(params, "user"));
    OptionIfWords(Filled(params, "password"), "--password=", ParamText(params, "password"));
    OptionIfWords(IsSet(params, "port"), "-P", ParamText(params, "port"));
    ItemsWordsConcat(h, u);
    ItemsWordsConcat(h + u, w);
    ItemsWordsConcat(h + u + w, p);
    assert ItemsWords(h + u + w + p) == ItemsWords(h) + ItemsWords(u) + ItemsWords(w) + ItemsWords(p);
  }

  /** The shell runs the MySQL client or dump program with the database, the
      redirection to or from the backup file, and the options, each exactly
      as given: quoting never splits or alters a value. */
  lemma MysqlCommandWords(bin: string, redirect: string, database: string, file: string,
                          params: map<string, ParamValue>)
    requires IsPlainWord(bin)
    requires redirect == ">" || redirect == "<"
    ensures Words(MysqlCommand(bin, redirect, database, file, params))
         == [bin, database, redirect, file] + MysqlArguments(params)
  {
    PlainWordIsLiteral(bin);
    var head := [Lit(bin), Arg("", database), Lit(redirect), Arg("", file)];
    assert AllReadable(head);
    MysqlOptionsReadable(params);
    HeadText(bin, redirect, database, file);
    HeadWords(bin, redirect, database, file);
    MysqlOptionsWords(params);
    WordsOfTwoParts(MysqlHead(bin, redirect, database, file), head, MysqlOptions(params));
  }

  /** A command written as a head followed by options reads back as the
      head's words followed by the options' words. */
  lemma WordsOfTwoParts(h: string, head: seq<Item>, opts: seq<Item>)
    requires AllReadable(head) && AllReadable(opts)
    requires ItemsText(head) == " " + h
    ensures Words(h + ItemsText(opts)) == ItemsWords(head) + ItemsWords(opts)
  {
    var t := ItemsText(opts);
    ReadableConcat(head, opts);
    ItemsTextConcat(head, opts);
    LeadingBlank(h, t);
    WordsOfItems(h + t, head + opts);
    ItemsWordsConcat(head, opts);
  }

  lemma LeadingBlank(h: string, t: string)
    ensures (" " + h) + t == " " + (h + t)
  {
  }

  lemma HeadWords(bin: string, redirect: string, database: string, file: string)
    ensures ItemsWords([Lit(bin), Arg("", database), Lit(redirect), Arg("", file)])
         == [bin, database, redirect, file]
  {
    var ws := ItemsWords([Lit(bin), Arg("", database), Lit(redirect), Arg("", file)]);
    assert ws[1] == "" + database == database;
    assert ws[3] == "" + file == file;
  }

  lemma HeadText(bin: string, redirect: string, database: string, file: string)
    ensures ItemsText([Lit(bin), Arg("", database), Lit(redirect), Arg("", file)])
         == " " + MysqlHead(bin, redirect, database, file)
  {
    var s := [Lit(bin), Arg("", database), Lit(redirect), Arg("", file)];
    assert s[0] == Lit(bin) && s[1..] == [Arg("", database), Lit(redirect), Arg("", file)];
    TailText(database, redirect, file);
    HeadGlue(bin, EscapeShellArg(database), redirect, EscapeShellArg(file));
  }

  lemma HeadGlue(bin: string, x: string, y: string, z: string)
    ensures (" " + bin) + (" " + x + " " + y + " " + z) == " " + (bin + " " + x + " " + y + " " + z)
  {
  }

  /** Three items are their three texts. */
  lemma ItemsTextThree(b: Item, c: Item, d: Item)
    ensures ItemsText([b, c, d]) == ItemText(b) + (ItemText(c) + ItemText(d))
  {
    assert [b, c, d][1..] == [c, d];
    assert [c, d][1..] == [d];
    assert [d][1..] == [];
    assert ItemsText([d]) == ItemText(d) + ItemsText([]) == ItemText(d);
  }

  lemma Assoc4(p: string, q: string, r: string, t: string)
    ensures p + (q + (r + t)) == p + q + r + t
  {
  }

  /** `.= sprintf(' <prefix>%s', escapeshellarg($value))` is one more item. */
  lemma AppendOption(command: string, items: seq<Item>, flag: string, prefix: string, value: string)
    requires command == ItemsText(items) && flag == " " + prefix
    ensures command + flag + EscapeShellArg(value) == ItemsText(items + OptionIf(true, prefix, value))
  {
    ItemsTextSnoc(items, Arg(prefix, value));
  }

  lemma SkipOption(items: seq<Item>, prefix: string, value: string)
    ensures items + OptionIf(false, prefix, value) == items
  {
  }

  /** One `if (...) { $options .= sprintf(' <prefix>%s', escapeshellarg(...)); }`. */
  method AppendIf(options: string, ghost items: seq<Item>, present: bool, prefix: string, value: string)
    returns (o: string)
    requires options == ItemsText(items)
    ensures o == ItemsText(items + OptionIf(present, prefix, value))
  {
    o := options;
    if present {
      var flag := " " + prefix;
      AppendOption(options, items, flag, prefix, value);
      o := options + flag + EscapeShellArg(value);
    } else {
      SkipOption(items, prefix, value);
    }
  }

  /** Appends the MySQL options to a command, one `if` per option. */
  method AppendMysqlOptions(command: string, params: map<string, ParamValue>) returns (c: string)
    ensures c == command + ItemsText(MysqlOptions(params))
  {
    var host := OptionIf(Filled(params, "host"), "--host=", ParamText(params, "host"));
    var user := OptionIf(Filled(params, "user"), "--user=", ParamText(params, "user"));
    var password := OptionIf(Filled(params, "password"), "--password=", ParamText(params, "password"));
    var port := OptionIf(IsSet(params, "port"), "-P", ParamText(params, "port"));
    var options := "";
    assert [] + host == host;
    options := AppendIf(options, [], Filled(params, "host"), "--host=", ParamText(params, "host"));
    options := AppendIf(options, host, Filled(params, "user"), "--user=", ParamText(params, "user"));
    options := AppendIf(options, host + user, Filled(params, "password"), "--password=", ParamText(params, "password"));
    options := AppendIf(options, host + user + password, IsSet(params, "port"), "-P", ParamText(params, "port"));
    c := command + options;
  }

  /** The MySQL strategy: `mysqldump` to create a backup, the `mysql` client
      to restore one, both binaries configurable. */
  class MysqlDumpBackup {
    var mysqldumpBin: string
    var mysqlBin: string

    constructor()
      ensures mysqldumpBin == "mysqldump" && mysqlBin == "mysql"
    {
      mysqldumpBin := "mysqldump";
      mysqlBin := "mysql";
    }

    method SetMysqldumpBin(bin: string)
      modifies this
      ensures mysqldumpBin == bin && mysqlBin == old(mysqlBin)
    {
      mysqldumpBin := bin;
    }

    method SetMysqlBin(bin: string)
      modifies this
      ensures mysqlBin == bin && mysqldumpBin == old(mysqldumpBin)
    {
      mysqlBin := bin;
    }

    function Name(): (n: string)
      ensures n == "mysql"
    {
      "mysql"
    }

    /** Dumps `database` into `file`. The shell creates the file before the
        dump runs, so it exists afterwards even when the dump fails. */
    method Create(database: string, file: string, params: map<string, ParamValue>, env: Env, host: Host)
      returns (r: Outcome<Error>)
      modifies host
      ensures host.log == old(host.log) + [Run(MysqlCommand(mysqldumpBin, ">", database, file, params))]
      ensures host.files == old(host.files) + {file}
      ensures host.declared == old(host.declared) && host.subscribers == old(host.subscribers)
      ensures r == RunOutcome(env, MysqlCommand(mysqldumpBin, ">", database, file, params))
    {
      var command := mysqldumpBin + " " + EscapeShellArg(database) + " > " + EscapeShellArg(file);
      assert command == MysqlHead(mysqldumpBin, ">", database, file);
      command := AppendMysqlOptions(command, params);
      host.files := host.files + {file};
      r := RunCommand(env, host, command);
    }

    /** Feeds `file` to the MySQL client connected to `database`. */
    method Restore(database: string, file: string, params: map<string, ParamValue>, env: Env, host: Host)
      returns (r: Outcome<Error>)
      modifies host
      ensures host.log == old(host.log) + [Run(MysqlCommand(mysqlBin, "<", database, file, params))]
      ensures host.files == old(host.files)
      ensures host.declared == old(host.declared) && host.subscribers == old(host.subscribers)
      ensures r == RunOutcome(env, MysqlCommand(mysqlBin, "<", database, file, params))
    {
      var command := mysqlBin + " " + EscapeShellArg(database) + " < " + EscapeShellArg(file);
      assert command == MysqlHead(mysqlBin, "<", database, file);
      command := AppendMysqlOptions(command, params);
      r := RunCommand(env, host, command);
    }
  }

  /** Under strict typing (PostgresqlDumpBackup.php declares strict types):
      `isset($params[$key]) && strlen($params[$key])`, where `strlen` of an
      integer throws. */
  function StrictFilled(params: map<string, ParamValue>, key: string): (r: Result<bool, Error>)
    ensures r.Failure? <==> IsSet(params, key) && params[key].Number?
    ensures r == Success(true) <==> IsSet(params, key) && params[key].Text? && params[key].text != []
  {
    if !IsSet(params, key) then Success(false)
    else match params[key]
      case Number(_) => Failure(TypeError("strlen(): Argument #1 ($string) must be of type string, int given"))
      case _ => Success(|ParamText(params, key)| > 0)
  }

  /** The port option as written: under strict typing `escapeshellarg` of an
      integer port throws. */
  function PgPortAsWritten(params: map<string, ParamValue>): Result<seq<Item>, Error> {
    if !IsSet(params, "port") then Success([])
    else match params["port"]
      case Number(_) => Failure(TypeError("escapeshellarg(): Argument #1 ($arg) must be of type string, int given"))
      case _ => Success([Arg("--port=", ParamText(params, "port"))])
  }

  /** The port option as evidently intended: an integer port is written in
      decimal, as the MySQL strategy writes it. */
  function PgPort(params: map<string, ParamValue>): Result<seq<Item>, Error> {
    Success(OptionIf(IsSet(params, "port"), "--port=", ParamText(params, "port")))
  }

  /** Host and user options followed by the given port option; the first
      throw wins, in the order the options are examined. */
  function PgOptionsWith(params: map<string, ParamValue>, port: Result<seq<Item>, Error>): Result<seq<Item>, Error> {
    match StrictFilled(params, "host")
    case Failure(e) => Failure(e)
    case Success(h) =>
      match StrictFilled(params, "user")
      case Failure(e) => Failure(e)
      case Success(u) =>
        match port
        case Failure(e) => Failure(e)
        case Success(p) =>
          Success(OptionIf(h, "--host=", ParamText(params, "host"))
                  + OptionIf(u, "--username=", ParamText(params, "user")) + p)
  }

  function PgOptionsAsWritten(params: map<string, ParamValue>): Result<seq<Item>, Error> {
    PgOptionsWith(params, PgPortAsWritten(params))
  }

  function PgOptions(params: map<string, ParamValue>): Result<seq<Item>, Error> {
    PgOptionsWith(params, PgPort(params))
  }

  /** The password, handed to the program through `PGPASSWORD` when given
      and non-empty. */
  function PgPassword(params: map<string, ParamValue>): Result<Option<string>, Error> {
    match StrictFilled(params, "password")
    case Failure(e) => Failure(e)
    case Success(b) => Success(if b then Some(ParamText(params, "password")) else None)
  }

  /** `sprintf('PGPASSWORD=%s ', escapeshellarg($password))`, or nothing. */
  function PasswordPrefix(password: Option<string>): string {
    match password
    case None => ""
    case Some(p) => "PGPASSWORD=" + EscapeShellArg(p) + " "
  }

  /** `sprintf('%s -Fc %s %s > %s', ...)` with the password prefix. */
  function PgDumpCommand(pgDump: string, options: seq<Item>, password: Option<string>,
                         database: string, file: string): string
  {
    PasswordPrefix(password)
    + (pgDump + " -Fc " + ItemsText(options) + " " + EscapeShellArg(database) + " > " + EscapeShellArg(file))
  }

  /** `sprintf('%s --clean %s --dbname=%s %s', ...)` with the password prefix. */
  function PgRestoreCommand(pgRestore: string, options: seq<Item>, password: Option<string>,
                            database: string, file: string): string
  {
    PasswordPrefix(password)
    + (pgRestore + " --clean " + ItemsText(options) + " --dbname=" + EscapeShellArg(database) + " " + EscapeShellArg(file))
  }

  /** What creating a PostgreSQL backup runs, or what it throws before
      running anything. */
  function PgCreatePlan(pgDump: string, params: map<string, ParamValue>, database: string, file: string)
    : Result<string, Error>
  {
    match PgOptions(params)
    case Failure(e) => Failure(e)
    case Success(o) =>
      match PgPassword(params)
      case Failure(e) => Failure(e)
      case Success(pw) => Success(PgDumpCommand(pgDump, o, pw, database, file))
  }

  function PgRestorePlan(pgRestore: string, params: map<string, ParamValue>, database: string, file: string)
    : Result<string, Error>
  {
    match PgOptions(params)
    case Failure(e) => Failure(e)
    case Success(o) =>
      match PgPassword(params)
      case Failure(e) => Failure(e)
      case Success(pw) => Success(PgRestoreCommand(pgRestore, o, pw, database, file))
  }

  /** A parameter given as an integer where strict typing wants a string. */
  predicate IntegerParam(params: map<string, ParamValue>, key: string) {
    IsSet(params, key) && params[key].Number?
  }

  /** With the port corrected, the PostgreSQL strategy throws before running
      anything exactly when the host, the user or the password is given as
      an integer; the port may be an integer. (As written, an integer port
      throws too: see `OptionsAsWrittenFail`.) */
  lemma PgPlanFails(pgDump: string, pgRestore: string, params: map<string, ParamValue>, database: string, file: string)
    ensures PgCreatePlan(pgDump, params, database, file).Failure?
        <==> IntegerParam(params, "host") || IntegerParam(params, "user") || IntegerParam(params, "password")
    ensures PgRestorePlan(pgRestore, params, database, file).Failure?
        <==> IntegerParam(params, "host") || IntegerParam(params, "user") || IntegerParam(params, "password")
    ensures PgCreatePlan(pgDump, params, database, file).Failure?
        ==> PgCreatePlan(pgDump, params, database, file).error.TypeError?
  {
  }

  /** The arguments `pg_dump` or `pg_restore` should receive as options:
      host and user when given and non-empty, the port whenever it is given. */
  function PgArguments(params: map<string, ParamValue>): seq<string> {
    (if Filled(params, "host") then ["--host=" + ParamText(params, "host")] else [])
    + (if Filled(params, "user") then ["--username=" + ParamText(params, "user")] else [])
    + (if IsSet(params, "port") then ["--port=" + ParamText(params, "port")] else [])
  }

  /** The words `PGPASSWORD=...` contributes: one environment assignment. */
  function PasswordWords(password: Option<string>): seq<string> {
    match password
    case None => []
    case Some(p) => ["PGPASSWORD=" + p]
  }

  function PasswordItems(password: Option<string>): seq<Item> {
    match password
    case None => []
    case Some(p) => [Arg("PGPASSWORD=", p)]
  }

  lemma PasswordText(password: Option<string>)
    ensures " " + PasswordPrefix(password) == ItemsText(PasswordItems(password)) + " "
    ensures AllReadable(PasswordItems(password))
    ensures ItemsWords(PasswordItems(password)) == PasswordWords(password)
  {
    FlagsLiteral();
    if password.Some? {
      ItemsTextCons(Arg("PGPASSWORD=", password.value), []);
      assert [Arg("PGPASSWORD=", password.value)] + [] == PasswordItems(password);
    }
  }

  /** The fixed flags of the PostgreSQL commands are plain text to the shell. */
  lemma FlagsLiteral()
    ensures AllLiteral("PGPASSWORD=") && AllLiteral("-Fc") && AllLiteral("--clean")
    ensures AllLiteral(">") && AllLiteral("--dbname=")
  {
    LiteralWithin("PGPASSWORD=", "PGASWORD=");
    LiteralWithin("-Fc", "-Fc");
    LiteralWithin("--clean", "-clean");
    LiteralWithin(">", ">");
    LiteralWithin("--dbname=", "-dbname=");
  }

  /** Text drawn from an alphabet of literal characters is literal. */
  lemma LiteralWithin(f: string, alphabet: string)
    requires AllLiteral(alphabet)
    requires forall i :: 0 <= i < |f| ==> f[i] in alphabet
    ensures AllLiteral(f)
  {
    forall i | 0 <= i < |f| ensures IsLiteral(f[i]) {
      var j :| 0 <= j < |alphabet| && alphabet[j] == f[i];
    }
  }


  /** The password assignment followed by the program and its flag. */
  lemma PasswordGroup(password: Option<string>, program: string, flag: string)
    requires IsPlainWord(program) && flag != [] && AllLiteral(flag)
    ensures AllReadable(PasswordItems(password) + [Lit(program), Lit(flag)])
    ensures ItemsWords(PasswordItems(password) + [Lit(program), Lit(flag)])
         == PasswordWords(password) + [program, flag]
  {
    var pw, lits := PasswordItems(password), [Lit(program), Lit(flag)];
    PlainWordIsLiteral(program);
    PasswordText(password);
    assert AllReadable(lits);
    ReadableConcat(pw, lits);
    ItemsWordsConcat(pw, lits);
  }

  /** The options followed by the fixed tail of a command. */
  lemma OptionsGroup(options: seq<Item>, tail: seq<Item>, tailWords: seq<string>)
    requires AllReadable(options) && AllReadable(tail) && ItemsWords(tail) == tailWords
    ensures AllReadable(options + tail)
    ensures ItemsWords(options + tail) == ItemsWords(options) + tailWords
  {
    ReadableConcat(options, tail);
    ItemsWordsConcat(options, tail);
  }

  lemma TwoLitsText(a: string, b: string)
    ensures ItemsText([Lit(a), Lit(b)]) == " " + a + " " + b
  {
    ItemsTextCons(Lit(b), []);
    ItemsTextCons(Lit(a), [Lit(b)]);
    assert [Lit(b)] + [] == [Lit(b)];
    assert [Lit(a)] + [Lit(b)] == [Lit(a), Lit(b)];
  }

  /** Gluing the written pieces of a PostgreSQL command: `p` is the password
      prefix and `x` the text of its items; `h` is the program and its first
      flag and `y` their items' text; `o` is the options and `t` what follows
      them; `c` is the command without the prefix. */
  lemma PgGlue(p: string, x: string, h: string, y: string, o: string, t: string, c: string, xy: string, ot: string)
    requires " " + p == x + " " && y == " " + h && c == h + " " + o + t
    requires xy == x + y && ot == o + t
    ensures " " + (p + c) == xy + " " + ot
  {
    calc {
      " " + (p + c);
      (" " + p) + c;
      (x + " ") + (h + " " + o + t);
      (x + (" " + h)) + " " + (o + t);
    }
  }

  /** `sprintf('%s -Fc %s %s > %s', ...)` split after the flag and before the database. */
  lemma PgDumpShape(d: string, o: string, e: string, f: string)
    ensures d + " -Fc " + o + " " + e + " > " + f == (d + " -Fc") + " " + o + (" " + e + " > " + f)
  {
    assert " -Fc " == " -Fc" + " ";
    Assoc4(d, " -Fc", " ", o);
  }

  /** The items of `<program> <flag>` written out. */
  lemma ProgramFlagText(d: string, flag: string, written: string)
    requires written == " " + flag
    ensures ItemsText([Lit(d), Lit(flag)]) == " " + (d + written)
  {
    TwoLitsText(d, flag);
    Assoc3(" ", d, " ", flag);
  }

  lemma Assoc3(p: string, q: string, r: string, t: string)
    ensures p + q + r + t == p + (q + (r + t))
  {
  }

  /** The shell runs `pg_dump` (after the password assignment, when there is
      one) with `-Fc`, the options, the database and the redirection to the
      backup file, each exactly as given. */
  lemma PgDumpWords(pgDump: string, options: seq<Item>, password: Option<string>, database: string, file: string)
    requires IsPlainWord(pgDump) && AllReadable(options)
    ensures Words(PgDumpCommand(pgDump, options, password, database, file))
         == PasswordWords(password) + [pgDump, "-Fc"] + (ItemsWords(options) + [database, ">", file])
  {
    var tail := [Arg("", database), Lit(">"), Arg("", file)];
    FlagsLiteral();
    PasswordGroup(password, pgDump, "-Fc");
    assert AllReadable(tail);
    TailWords(database, ">", file);
    OptionsGroup(options, tail, [database, ">", file]);
    PgDumpText(pgDump, options, password, database, file);
    WordsOfTwoGroups(PgDumpCommand(pgDump, options, password, database, file),
                     PasswordItems(password) + [Lit(pgDump), Lit("-Fc")], options + tail,
                     PasswordWords(password) + [pgDump, "-Fc"], ItemsWords(options) + [database, ">", file]);
  }


  /** `WordsOfItemsGap` with the words of each group given. */
  lemma WordsOfTwoGroups(s: string, a: seq<Item>, b: seq<Item>, wa: seq<string>, wb: seq<string>)
    requires AllReadable(a) && AllReadable(b)
    requires " " + s == ItemsText(a) + " " + ItemsText(b)
    requires ItemsWords(a) == wa && ItemsWords(b) == wb
    ensures Words(s) == wa + wb
  {
    WordsOfItemsGap(s, a, b);
  }

  lemma PgDumpText(pgDump: string, options: seq<Item>, password: Option<string>, database: string, file: string)
    ensures " " + PgDumpCommand(pgDump, options, password, database, file)
         == ItemsText(PasswordItems(password) + [Lit(pgDump), Lit("-Fc")]) + " "
            + ItemsText(options + [Arg("", database), Lit(">"), Arg("", file)])
  {
    var pw := PasswordItems(password);
    var lits := [Lit(pgDump), Lit("-Fc")];
    var tail := [Arg("", database), Lit(">"), Arg("", file)];
    var p, x, h, y := PasswordPrefix(password), ItemsText(pw), pgDump + " -Fc", ItemsText(lits);
    var o, t := ItemsText(options), ItemsText(tail);
    var e, f := EscapeShellArg(database), EscapeShellArg(file);
    var c := pgDump + " -Fc " + o + " " + e + " > " + f;
    PasswordText(password);
    assert y == " " + h by { ProgramFlagText(pgDump, "-Fc", " -Fc"); }
    assert c == h + " " + o + t by {
      TailText(database, ">", file);
      PgDumpShape(pgDump, o, e, f);
    }
    assert ItemsText(pw + lits) == x + y by { ItemsTextConcat(pw, lits); }
    assert ItemsText(options + tail) == o + t by { ItemsTextConcat(options, tail); }
    PgGlue(p, x, h, y, o, t, c, ItemsText(pw + lits), ItemsText(options + tail));
  }

  lemma TailText(database: string, middle: string, file: string)
    ensures ItemsText([Arg("", database), Lit(middle), Arg("", file)])
         == " " + EscapeShellArg(database) + " " + middle + " " + EscapeShellArg(file)
  {
    var b, c, d := Arg("", database), Lit(middle), Arg("", file);
    ItemsTextThree(b, c, d);
    var eb, ef := EscapeShellArg(database), EscapeShellArg(file);
    assert ItemText(b) == " " + eb;
    assert ItemText(d) == " " + ef;
    SpacedThree(eb, middle, ef);
  }

  lemma SpacedThree(x: string, y: string, z: string)
    ensures (" " + x) + ((" " + y) + (" " + z)) == " " + x + " " + y + " " + z
  {
  }

  lemma TailWords(database: string, middle: string, file: string)
    ensures ItemsWords([Arg("", database), Lit(middle), Arg("", file)]) == [database, middle, file]
  {
    var ws := ItemsWords([Arg("", database), Lit(middle), Arg("", file)]);
    assert ws[0] == "" + database == database;
    assert ws[2] == "" + file == file;
  }

  /** The shell runs `pg_restore` (after the password assignment, when there
      is one) with `--clean`, the options, the database and the backup file,
      each exactly as given. */
  lemma PgRestoreWords(pgRestore: string, options: seq<Item>, password: Option<string>, database: string, file: string)
    requires IsPlainWord(pgRestore) && AllReadable(options)
    ensures Words(PgRestoreCommand(pgRestore, options, password, database, file))
         == PasswordWords(password) + [pgRestore, "--clean"] + (ItemsWords(options) + ["--dbname=" + database, file])
  {
    var tail := [Arg("--dbname=", database), Arg("", file)];
    FlagsLiteral();
    PasswordGroup(password, pgRestore, "--clean");
    assert AllReadable(tail);
    RestoreTailWords(database, file);
    OptionsGroup(options, tail, ["--dbname=" + database, file]);
    PgRestoreText(pgRestore, options, password, database, file);
    WordsOfTwoGroups(PgRestoreCommand(pgRestore, options, password, database, file),
                     PasswordItems(password) + [Lit(pgRestore), Lit("--clean")], options + tail,
                     PasswordWords(password) + [pgRestore, "--clean"], ItemsWords(options) + ["--dbname=" + database, file]);
  }


  lemma PgRestoreText(pgRestore: string, options: seq<Item>, password: Option<string>, database: string, file: string)
    ensures " " + PgRestoreCommand(pgRestore, options, password, database, file)
         == ItemsText(PasswordItems(password) + [Lit(pgRestore), Lit("--clean")]) + " "
            + ItemsText(options + [Arg("--dbname=", database), Arg("", file)])
  {
    var pw := PasswordItems(password);
    var lits := [Lit(pgRestore), Lit("--clean")];
    var tail := [Arg("--dbname=", database), Arg("", file)];
    var p, x, h, y := PasswordPrefix(password), ItemsText(pw), pgRestore + " --clean", ItemsText(lits);
    var o, t := ItemsText(options), ItemsText(tail);
    var e, f := EscapeShellArg(database), EscapeShellArg(file);
    var c := pgRestore + " --clean " + o + " --dbname=" + e + " " + f;
    PasswordText(password);
    assert y == " " + h by { ProgramFlagText(pgRestore, "--clean", " --clean"); }
    assert c == h + " " + o + t by {
      RestoreTailText(database, file);
      PgRestoreShape(pgRestore, o, e, f);
    }
    assert ItemsText(pw + lits) == x + y by { ItemsTextConcat(pw, lits); }
    assert ItemsText(options + tail) == o + t by { ItemsTextConcat(options, tail); }
    PgGlue(p, x, h, y, o, t, c, ItemsText(pw + lits), ItemsText(options + tail));
  }

  /** `sprintf('%s --clean %s --dbname=%s %s', ...)` split after the flag and
      before the database. */
  lemma PgRestoreShape(d: string, o: string, e: string, f: string)
    ensures d + " --clean " + o + " --dbname=" + e + " " + f
         == (d + " --clean") + " " + o + (" --dbname=" + e + " " + f)
  {
    assert " --clean " == " --clean" + " ";
    Assoc4(d, " --clean", " ", o);
  }

  lemma RestoreTailText(database: string, file: string)
    ensures ItemsText([Arg("--dbname=", database), Arg("", file)])
         == " --dbname=" + EscapeShellArg(database) + " " + EscapeShellArg(file)
  {
    var b, d := Arg("--dbname=", database), Arg("", file);
    assert [b, d][1..] == [d];
    assert [d][1..] == [];
    assert ItemsText([d]) == ItemText(d) + ItemsText([]) == ItemText(d);
    assert ItemsText([b, d]) == ItemText(b) + ItemsText([d]);
    assert ItemText(b) == " --dbname=" + EscapeShellArg(database);
    assert ItemText(d) == " " + EscapeShellArg(file);
  }

  lemma RestoreTailWords(database: string, file: string)
    ensures ItemsWords([Arg("--dbname=", database), Arg("", file)]) == ["--dbname=" + database, file]
  {
    var ws := ItemsWords([Arg("--dbname=", database), Arg("", file)]);
    assert ws[1] == "" + file == file;
  }

  /** Successful PostgreSQL options are read back as the intended arguments. */
  lemma PgOptionsWords(params: map<string, ParamValue>)
    requires PgOptions(params).Success?
    ensures AllReadable(PgOptions(params).value)
    ensures ItemsWords(PgOptions(params).value) == PgArguments(params)
  {
    var h := OptionIf(Filled(params, "host"), "--host=", ParamText(params, "host"));
    var u := OptionIf(Filled(params, "user"), "--username=", ParamText(params, "user"));
    var p := OptionIf(IsSet(params, "port"), "--port=", ParamText(params, "port"));
    assert PgOptions(params).value == h + u + p;
    OptionIfReadable(Filled(params, "host"), "--host=", ParamText(params, "host"));
    OptionIfReadable(Filled(params, "user"), "--username=", ParamText(params, "user"));
    OptionIfReadable(IsSet(params, "port"), "--port=", ParamText(params, "port"));
    ReadableConcat(h, u);
    ReadableConcat(h + u, p);
    ItemsWordsConcat(h + u, p);
    ItemsWordsConcat(h, u);
  }

  /** The words of the password assignment, from the parameters. */
  function PgPasswordWords(params: map<string, ParamValue>): seq<string> {
    if Filled(params, "password") then ["PGPASSWORD=" + ParamText(params, "password")] else []
  }

  /** When creating a PostgreSQL backup runs a command, the shell runs
      `pg_dump -Fc`, the options, the database, and writes to the backup file,
      with the password in the environment only. */
  lemma PgCreateCommandWords(pgDump: string, params: map<string, ParamValue>, database: string, file: string)
    requires IsPlainWord(pgDump)
    requires PgCreatePlan(pgDump, params, database, file).Success?
    ensures Words(PgCreatePlan(pgDump, params, database, file).value)
         == PgPasswordWords(params) + [pgDump, "-Fc"] + (PgArguments(params) + [database, ">", file])
  {
    PgOptionsWords(params);
    assert PasswordWords(PgPassword(params).value) == PgPasswordWords(params);
    PgDumpWords(pgDump, PgOptions(params).value, PgPassword(params).value, database, file);
  }

  /** When restoring a PostgreSQL backup runs a command, the shell runs
      `pg_restore --clean`, the options, `--dbname=` and the backup file. */
  lemma PgRestoreCommandWords(pgRestore: string, params: map<string, ParamValue>, database: string, file: string)
    requires IsPlainWord(pgRestore)
    requires PgRestorePlan(pgRestore, params, database, file).Success?
    ensures Words(PgRestorePlan(pgRestore, params, database, file).value)
         == PgPasswordWords(params) + [pgRestore, "--clean"] + (PgArguments(params) + ["--dbname=" + database, file])
  {
    PgOptionsWords(params);
    assert PasswordWords(PgPassword(params).value) == PgPasswordWords(params);
    PgRestoreWords(pgRestore, PgOptions(params).value, PgPassword(params).value, database, file);
  }

  /** As written, an integer port makes the PostgreSQL strategy throw a
      TypeError before it runs anything (when host and user are strings). */
  lemma IntegerPortAsWritten(params: map<string, ParamValue>)
    requires IntegerParam(params, "port")
    requires !IntegerParam(params, "host") && !IntegerParam(params, "user")
    ensures PgOptionsAsWritten(params).Failure?
    ensures PgOptionsAsWritten(params).error.TypeError?
  {
    var port := PgPortAsWritten(params);
    assert port.Failure? && port.error.TypeError?;
    assert StrictFilled(params, "host").Success? && StrictFilled(params, "user").Success?;
  }

  /** As written, the options throw exactly when the host, the user or the
      port is given as an integer. */
  lemma OptionsAsWrittenFail(params: map<string, ParamValue>)
    ensures PgOptionsAsWritten(params).Failure?
        <==> IntegerParam(params, "host") || IntegerParam(params, "user") || IntegerParam(params, "port")
    ensures PgOptionsAsWritten(params).Failure? ==> PgOptionsAsWritten(params).error.TypeError?
  {
  }

  /** The connection `host=localhost, port=5432` (an integer, as a parsed
      database URL gives it) cannot be backed up as written. */
  lemma IntegerPortExample()
    ensures PgOptionsAsWritten(map["host" := Text("localhost"), "port" := Number(5432)]).Failure?
    ensures PgOptions(map["host" := Text("localhost"), "port" := Number(5432)])
         == Success([Arg("--host=", "localhost"), Arg("--port=", "5432")])
  {
    var params := map["host" := Text("localhost"), "port" := Number(5432)];
    assert IntToString(5432) == "5432" by {
      assert NatToString(5) == "5";
      assert NatToString(54) == "54";
      assert NatToString(543) == "543";
    }
    assert ParamText(params, "port") == "5432";
    assert StrictFilled(params, "host") == Success(true);
    assert StrictFilled(params, "user") == Success(false);
    PgOptionsSuccess(params, true, false);
    assert [Arg("--host=", "localhost")] + [] + [Arg("--port=", "5432")]
        == [Arg("--host=", "localhost"), Arg("--port=", "5432")];
  }

  /** Corrected, an integer port is passed in decimal, as MySQL's `-P` passes it. */
  lemma IntegerPortCorrected(params: map<string, ParamValue>)
    requires IntegerParam(params, "port")
    requires !IntegerParam(params, "host") && !IntegerParam(params, "user")
    ensures PgOptions(params).Success?
    ensures "--port=" + IntToString(params["port"].number) in ItemsWords(PgOptions(params).value)
  {
    PgOptionsWords(params);
    var args := PgArguments(params);
    assert args[|args| - 1] == "--port=" + IntToString(params["port"].number);
  }

  /** The correction changes nothing for a port given as a string. */
  lemma PortCorrectionConservative(params: map<string, ParamValue>)
    requires !IntegerParam(params, "port")
    ensures PgOptionsAsWritten(params) == PgOptions(params)
  {
  }

  lemma PgOptionsSuccess(params: map<string, ParamValue>, h: bool, u: bool)
    requires StrictFilled(params, "host") == Success(h) && StrictFilled(params, "user") == Success(u)
    ensures PgOptions(params) == Success(OptionIf(h, "--host=", ParamText(params, "host"))
                                         + OptionIf(u, "--username=", ParamText(params, "user"))
                                         + OptionIf(IsSet(params, "port"), "--port=", ParamText(params, "port")))
  {
  }

  /** The options, built as PostgresqlDumpBackup.php builds them, with the
      port corrected. */
  method BuildPgOptions(params: map<string, ParamValue>) returns (r: Result<string, Error>)
    ensures PgOptions(params).Failure? ==> r == Failure(PgOptions(params).error)
    ensures PgOptions(params).Success? ==> r == Success(ItemsText(PgOptions(params).value))
  {
    var hostFilled := StrictFilled(params, "host");
    if hostFilled.Failure? {
      return Failure(hostFilled.error);
    }
    var host := OptionIf(hostFilled.value, "--host=", ParamText(params, "host"));
    var options := AppendIf("", [], hostFilled.value, "--host=", ParamText(params, "host"));
    assert [] + host == host;
    var userFilled := StrictFilled(params, "user");
    if userFilled.Failure? {
      return Failure(userFilled.error);
    }
    var user := OptionIf(userFilled.value, "--username=", ParamText(params, "user"));
    options := AppendIf(options, host, userFilled.value, "--username=", ParamText(params, "user"));
    options := AppendIf(options, host + user, IsSet(params, "port"), "--port=", ParamText(params, "port"));
    PgOptionsSuccess(params, hostFilled.value, userFilled.value);
    return Success(options);
  }

  /** The PostgreSQL strategy: `pg_dump` in custom format to create a backup,
      `pg_restore --clean` to restore one; the password travels in the
      `PGPASSWORD` environment variable. */
  class PostgresqlDumpBackup {
    const pgRestore: string
    const pgDump: string

    constructor()
      ensures pgRestore == "pg_restore" && pgDump == "pg_dump"
    {
      pgRestore := "pg_restore";
      pgDump := "pg_dump";
    }

    function Name(): (n: string)
      ensures n == "postgresql"
    {
      "postgresql"
    }

    /** Dumps `database` into `file`, or throws before running anything. */
    method Create(database: string, file: string, params: map<string, ParamValue>, env: Env, host: Host)
      returns (r: Outcome<Error>)
      modifies host
      ensures var plan := PgCreatePlan(pgDump, params, database, file);
        && (plan.Failure? ==> r == Fail(plan.error) && host.log == old(host.log) && host.files == old(host.files))
        && (plan.Success? ==> r == RunOutcome(env, plan.value)
                              && host.log == old(host.log) + [Run(plan.value)]
                              && host.files == old(host.files) + {file})
      ensures host.declared == old(host.declared) && host.subscribers == old(host.subscribers)
    {
      var options := BuildPgOptions(params);
      if options.Failure? {
        return Fail(options.error);
      }
      var command := pgDump + " -Fc " + options.value + " " + EscapeShellArg(database) + " > " + EscapeShellArg(file);
      var password := StrictFilled(params, "password");
      if password.Failure? {
        return Fail(password.error);
      }
      if password.value {
        command := "PGPASSWORD=" + EscapeShellArg(ParamText(params, "password")) + " " + command;
      }
      assert command == PgDumpCommand(pgDump, PgOptions(params).value, PgPassword(params).value, database, file);
      host.files := host.files + {file};
      r := RunCommand(env, host, command);
    }

    /** Restores `database` from `file`, or throws before running anything. */
    method Restore(database: string, file: string, params: map<string, ParamValue>, env: Env, host: Host)
      returns (r: Outcome<Error>)
      modifies host
      ensures var plan := PgRestorePlan(pgRestore, params, database, file);
        && (plan.Failure? ==> r == Fail(plan.error) && host.log == old(host.log))
        && (plan.Success? ==> r == RunOutcome(env, plan.value) && host.log == old(host.log) + [Run(plan.value)])
      ensures host.files == old(host.files)
      ensures host.declared == old(host.declared) && host.subscribers == old(host.subscribers)
    {
      var options := BuildPgOptions(params);
      if options.Failure? {
        return Fail(options.error);
      }
      var command := pgRestore + " --clean " + options.value + " --dbname=" + EscapeShellArg(database) + " " + EscapeShellArg(file);
      var password := StrictFilled(params, "password");
      if password.Failure? {
        return Fail(password.error);
      }
      if password.value {
        command := "PGPASSWORD=" + EscapeShellArg(ParamText(params, "password")) + " " + command;
      }
      assert command == PgRestoreCommand(pgRestore, PgOptions(params).value, PgPassword(params).value, database, file);
      r := RunCommand(env, host, command);
    }
  }

  /** `BackupInterface`, closed over its two implementations. */
  datatype Backup = Mysql(mysql: MysqlDumpBackup) | Postgresql(postgresql: PostgresqlDumpBackup)
  {
    function Name(): (n: string)
      ensures n == "mysql" <==> Mysql?
      ensures n == "postgresql" <==> Postgresql?
    {
      if Mysql? then mysql.Name() else postgresql.Name()
    }

    /** The mutable configuration a plan depends on. */
    function Footprint(): set<object> {
      if Mysql? then {mysql} else {}
    }

    /** The command creating a backup runs, or what it throws first. */
    function CreatePlan(database: string, file: string, params: map<string, ParamValue>): Result<string, Error>
      reads Footprint()
    {
      if Mysql? then Success(MysqlCommand(mysql.mysqldumpBin, ">", database, file, params))
      else PgCreatePlan(postgresql.pgDump, params, database, file)
    }

    /** The command restoring a backup runs, or what it throws first. */
    function RestorePlan(database: string, file: string, params: map<string, ParamValue>): Result<string, Error>
      reads Footprint()
    {
      if Mysql? then Success(MysqlCommand(mysql.mysqlBin, "<", database, file, params))
      else PgRestorePlan(postgresql.pgRestore, params, database, file)
    }

    /** Runs the creation plan; the backup file exists afterwards whenever
        the command ran, even if it failed. */
    method Create(database: string, file: string, params: map<string, ParamValue>, env: Env, host: Host)
      returns (r: Outcome<Error>)
      modifies host
      ensures var plan := CreatePlan(database, file, params);
        && (plan.Failure? ==> r == Fail(plan.error) && host.log == old(host.log) && host.files == old(host.files))
        && (plan.Success? ==> r == RunOutcome(env, plan.value)
                              && host.log == old(host.log) + [Run(plan.value)]
                              && host.files == old(host.files) + {file})
      ensures host.declared == old(host.declared) && host.subscribers == old(host.subscribers)
    {
      if Mysql? {
        r := mysql.Create(database, file, params, env, host);
      } else {
        r := postgresql.Create(database, file, params, env, host);
      }
    }

    /** Runs the restoring plan; no file is created. */
    method Restore(database: string, file: string, params: map<string, ParamValue>, env: Env, host: Host)
      returns (r: Outcome<Error>)
      modifies host
      ensures var plan := RestorePlan(database, file, params);
        && (plan.Failure? ==> r == Fail(plan.error) && host.log == old(host.log))
        && (plan.Success? ==> r == RunOutcome(env, plan.value) && host.log == old(host.log) + [Run(plan.value)])
      ensures host.files == old(host.files)
      ensures host.declared == old(host.declared) && host.subscribers == old(host.subscribers)
    {
      if Mysql? {
        r := mysql.Restore(database, file, params, env, host);
      } else {
        r := postgresql.Restore(database, file, params, env, host);
      }
    }
  }
}
