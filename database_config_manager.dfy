/**
 * `DatabaseConfigManager` once `database.yml` is loaded: the document is a
 * map from section names ("connection", "pool", "options", "performance")
 * to values as SnakeYAML builds them. Every getter looks its key up in its
 * section with a default, and the casts the getters make can throw. The
 * validator runs all of its checks before its single throw, and the JDBC URL
 * is the text a string builder collects.
 */
module DatabaseSettings {
  import opened JavaBase
  import Float64

  /**
   * A YAML value as SnakeYAML loads it: an integer of any size (`Integer`,
   * `Long` or `BigInteger`), a floating-point number (`Double`), a boolean,
   * a string, a nested mapping, null, or anything else (a list, a date).
   */
  datatype Value =
    | VNull
    | VString(s: JString)
    | VInt(n: int)
    | VFloat(d: Float64.Double)
    | VBool(b: bool)
    | VMap(entries: map<JString, Value>)
    | VOther

  /** The values that are a `java.lang.Number`. */
  predicate IsNumber(v: Value) {
    v.VInt? || v.VFloat?
  }

  /** `Number.intValue()`: an integer's low 32 bits, a double narrowed toward zero. */
  function IntValue(v: Value): int32
    requires IsNumber(v)
  {
    if v.VInt? then Wrap32(v.n) else Float64.ToInt(v.d)
  }

  /** `Number.longValue()`: an integer's low 64 bits, a double narrowed toward zero. */
  function LongValue(v: Value): int64
    requires IsNumber(v)
  {
    if v.VInt? then Wrap64(v.n) else Float64.ToLong(v.d)
  }

  type Section = map<JString, Value>

  /** The loaded `database.yml`. */
  type Document = map<JString, Value>

  /** What a getter throws: a cast to the wrong type, or a call on null. */
  datatype ConfigError = ClassCast | NullPointer

  /** A Java `String` reference: null, or the characters. */
  datatype StringRef = NullRef | Chars(s: JString)

  const CONNECTION: JString := J("connection")
  const POOL: JString := J("pool")
  const OPTIONS: JString := J("options")
  const PERFORMANCE: JString := J("performance")

  const HOST: JString := J("host")
  const PORT: JString := J("port")
  const DATABASE: JString := J("database")
  const USERNAME: JString := J("username")
  const PASSWORD: JString := J("password")
  const MAX_POOL_SIZE: JString := J("max_pool_size")
  const MIN_IDLE: JString := J("min_idle")
  const CONNECTION_TIMEOUT: JString := J("connection_timeout")
  const IDLE_TIMEOUT: JString := J("idle_timeout")
  const MAX_LIFETIME: JString := J("max_lifetime")
  const USE_SSL: JString := J("use_ssl")
  const SERVER_TIMEZONE: JString := J("server_timezone")
  const ALLOW_PUBLIC_KEY_RETRIEVAL: JString := J("allow_public_key_retrieval")
  const USE_UNICODE: JString := J("use_unicode")
  const CHARACTER_ENCODING: JString := J("character_encoding")
  const CACHE_PREP_STMTS: JString := J("cache_prep_stmts")
  const PREP_STMT_CACHE_SIZE: JString := J("prep_stmt_cache_size")
  const PREP_STMT_CACHE_SQL_LIMIT: JString := J("prep_stmt_cache_sql_limit")
  const USE_SERVER_PREP_STMTS: JString := J("use_server_prep_stmts")

  /** The password the default `database.yml` ships with. */
  const DEFAULT_PASSWORD: JString := J("your_password_here")

  // ----- Getters -----

  /**
   * `getConnectionConfig` and its three siblings: `getOrDefault(name, new
   * LinkedHashMap<>())` cast to a map. A value that is not a mapping fails
   * the cast; a null one gets through it and throws at the first lookup.
   */
  function SectionOf(doc: Document, name: JString): Result<Section, ConfigError> {
    if name !in doc then Ok(map[])
    else match doc[name]
      case VMap(m) => Ok(m)
      case VNull => Err(NullPointer)
      case _ => Err(ClassCast)
  }

  /** `getConnectionString` and `getOptionsString`: `(String) getOrDefault(key, "")`. */
  function StringSetting(doc: Document, section: JString, key: JString): Result<StringRef, ConfigError> {
    var m :- SectionOf(doc, section);
    if key !in m then Ok(Chars([]))
    else match m[key]
      case VString(s) => Ok(Chars(s))
      case VNull => Ok(NullRef)
      case _ => Err(ClassCast)
  }

  /** `getConnectionInt`, `getPoolInt` and `getPerformanceInt`: a `Number`'s `intValue()`, else 0. */
  function IntSetting(doc: Document, section: JString, key: JString): Result<int32, ConfigError> {
    var m :- SectionOf(doc, section);
    Ok(if key in m && IsNumber(m[key]) then IntValue(m[key]) else 0)
  }

  /** `getPoolLong`: a `Number`'s `longValue()`, else 0. */
  function LongSetting(doc: Document, section: JString, key: JString): Result<int64, ConfigError> {
    var m :- SectionOf(doc, section);
    Ok(if key in m && IsNumber(m[key]) then LongValue(m[key]) else 0)
  }

  /** `getOptionsBoolean` and `getPerformanceBoolean`: a `Boolean`'s value, else false. */
  function BoolSetting(doc: Document, section: JString, key: JString): Result<bool, ConfigError> {
    var m :- SectionOf(doc, section);
    Ok(key in m && m[key].VBool? && m[key].b)
  }

  /**
   * A section that is missing, or a key missing from its section, reads as
   * the default: the empty string, 0, or false. Only the cast of a present
   * value can throw.
   */
  lemma MissingReadsAsDefault(doc: Document, section: JString, key: JString)
    requires section !in doc || (doc[section].VMap? && key !in doc[section].entries)
    ensures StringSetting(doc, section, key) == Ok(Chars([]))
    ensures IntSetting(doc, section, key) == Ok(0)
    ensures LongSetting(doc, section, key) == Ok(0)
    ensures BoolSetting(doc, section, key) == Ok(false)
  {
  }

  /**
   * A number getter never fails on the value itself: it fails exactly when
   * its section is present but not a mapping, and reads 0 for anything that
   * is not a number.
   */
  lemma NumberGettersFailOnlyOnSection(doc: Document, section: JString, key: JString)
    ensures IntSetting(doc, section, key).Err? <==> section in doc && !doc[section].VMap?
    ensures LongSetting(doc, section, key).Err? <==> section in doc && !doc[section].VMap?
    ensures BoolSetting(doc, section, key).Err? <==> section in doc && !doc[section].VMap?
    ensures section in doc && doc[section].VMap? && (key !in doc[section].entries || !IsNumber(doc[section].entries[key])) ==>
      IntSetting(doc, section, key) == Ok(0) && LongSetting(doc, section, key) == Ok(0)
  {
  }

  /**
   * A floating-point setting holding a whole number reads exactly as that
   * integer would: `port: 3306.0` is port 3306.
   */
  lemma WholeFloatReadsAsInteger(doc: Document, section: JString, key: JString, n: int)
    requires section in doc && doc[section].VMap? && key in doc[section].entries
    requires var v := doc[section].entries[key];
      v.VFloat? && Float64.IsFinite(v.d) && Float64.Value(v.d) == n * Float64.ONE
    ensures -0x8000_0000 <= n < 0x8000_0000 ==> IntSetting(doc, section, key) == Ok(n)
    ensures -0x8000_0000_0000_0000 <= n < 0x8000_0000_0000_0000 ==> LongSetting(doc, section, key) == Ok(n)
  {
    var d := doc[section].entries[key].d;
    if -0x8000_0000 <= n < 0x8000_0000 {
      Float64.NarrowWholeNumber(d, n, -0x8000_0000, 0x7FFF_FFFF);
    }
    if -0x8000_0000_0000_0000 <= n < 0x8000_0000_0000_0000 {
      Float64.NarrowWholeNumber(d, n, -0x8000_0000_0000_0000, 0x7FFF_FFFF_FFFF_FFFF);
    }
  }

  // ----- Validation -----

  /** One thing `validateDatabaseConfig` reports; all but the default password are errors. */
  datatype Problem = EmptyHost | EmptyDatabase | EmptyUsername | DefaultPassword | PortOutOfRange | PoolSizeNotPositive

  predicate IsError(p: Problem) {
    p != DefaultPassword
  }

  /** How validation ends: it passes, throws for the errors it found, or a getter throws first. */
  datatype Verdict = Accepted | Rejected | Threw(error: ConfigError)

  /** The values the validator reads; the four strings cannot be null, since it calls methods on them. */
  datatype Checked = Checked(host: JString, database: JString, username: JString, password: JString, port: int32, maxPoolSize: int32)

  /** A string setting the validator calls a method on: null throws there. */
  function NonNullSetting(doc: Document, key: JString): Result<JString, ConfigError> {
    var r :- StringSetting(doc, CONNECTION, key);
    if r.NullRef? then Err(NullPointer) else Ok(r.s)
  }

  /** The settings, read in the order the validator reads them; the first getter to throw ends it. */
  function CheckedOf(doc: Document): Result<Checked, ConfigError> {
    var host :- NonNullSetting(doc, HOST);
    var database :- NonNullSetting(doc, DATABASE);
    var username :- NonNullSetting(doc, USERNAME);
    var password :- NonNullSetting(doc, PASSWORD);
    var port :- IntSetting(doc, CONNECTION, PORT);
    var pool :- IntSetting(doc, POOL, MAX_POOL_SIZE);
    Ok(Checked(host, database, username, password, port, pool))
  }

  /** Once the host has been read, the connection section is a mapping and the port read cannot throw. */
  lemma PortReadable(doc: Document)
    requires NonNullSetting(doc, HOST).Ok?
    ensures IntSetting(doc, CONNECTION, PORT).Ok?
  {
  }

  /** Whether a problem applies to the settings read. */
  predicate Applies(p: Problem, c: Checked) {
    match p
    case EmptyHost => c.host == []
    case EmptyDatabase => c.database == []
    case EmptyUsername => c.username == []
    case DefaultPassword => c.password == DEFAULT_PASSWORD
    case PortOutOfRange => c.port <= 0 || c.port > 65535
    case PoolSizeNotPositive => c.maxPoolSize <= 0
  }

  /** What one check logs: its problem, if the condition it tests holds. */
  function Report(p: Problem, applies: bool): seq<Problem> {
    if applies then [p] else []
  }

  /** The problems the validator reports, in the order it makes its checks. */
  function Found(c: Checked): seq<Problem> {
    Report(EmptyHost, c.host == []) + Report(EmptyDatabase, c.database == [])
    + Report(EmptyUsername, c.username == []) + Report(DefaultPassword, c.password == DEFAULT_PASSWORD)
    + Report(PortOutOfRange, c.port <= 0 || c.port > 65535) + Report(PoolSizeNotPositive, c.maxPoolSize <= 0)
  }

  /** Each problem is reported exactly when it applies. */
  lemma FoundMeaning(c: Checked, p: Problem)
    ensures p in Found(c) <==> Applies(p, c)
  {
    var r1 := Report(EmptyHost, c.host == []);
    var r2 := Report(EmptyDatabase, c.database == []);
    var r3 := Report(EmptyUsername, c.username == []);
    var r4 := Report(DefaultPassword, c.password == DEFAULT_PASSWORD);
    var r5 := Report(PortOutOfRange, c.port <= 0 || c.port > 65535);
    var r6 := Report(PoolSizeNotPositive, c.maxPoolSize <= 0);
    assert Found(c) == r1 + r2 + r3 + r4 + r5 + r6;
    assert p in Found(c) <==> p in r1 || p in r2 || p in r3 || p in r4 || p in r5 || p in r6;
  }

  /** Validation as a whole: a getter that throws, else rejected exactly when an error applies. */
  function VerdictOf(doc: Document): Verdict {
    match CheckedOf(doc)
    case Err(e) => Threw(e)
    case Ok(c) => if HasCriticalError(c) then Rejected else Accepted
  }

  /**
   * One check of `validateDatabaseConfig`: when its condition holds it logs
   * its message, and an error (every problem but the default password) also
   * sets `hasErrors`.
   */
  method Check(log: seq<Problem>, hasErrors: bool, p: Problem, applies: bool) returns (log': seq<Problem>, hasErrors': bool)
    ensures log' == log + Report(p, applies)
    ensures hasErrors' == (hasErrors || (applies && IsError(p)))
  {
    log', hasErrors' := log, hasErrors;
    if applies {
      log' := log + [p];
      if IsError(p) {
        hasErrors' := true;
      }
    }
  }

  /**
   * `validateDatabaseConfig`: each check reads its setting, logs an error
   * (or, for the default password, a warning) and goes on; after the last
   * check it throws if any error was logged. `log` is what it reported before
   * it finished or a getter threw.
   */
  method ValidateDatabaseConfig(doc: Document) returns (log: seq<Problem>, verdict: Verdict)
    ensures verdict == VerdictOf(doc)
    ensures CheckedOf(doc).Ok? ==> log == Found(CheckedOf(doc).value)
  {
    log := [];
    var hasErrors := false;
    var host := NonNullSetting(doc, HOST);
    if host.Err? {
      return log, Threw(host.error);
    }
    log, hasErrors := Check(log, hasErrors, EmptyHost, host.value == []);
    assert log == Report(EmptyHost, host.value == []);
    var database := NonNullSetting(doc, DATABASE);
    if database.Err? {
      return log, Threw(database.error);
    }
    log, hasErrors := Check(log, hasErrors, EmptyDatabase, database.value == []);
    var username := NonNullSetting(doc, USERNAME);
    if username.Err? {
      return log, Threw(username.error);
    }
    log, hasErrors := Check(log, hasErrors, EmptyUsername, username.value == []);
    var password := NonNullSetting(doc, PASSWORD);
    if password.Err? {
      return log, Threw(password.error);
    }
    log, hasErrors := Check(log, hasErrors, DefaultPassword, password.value == DEFAULT_PASSWORD);
    PortReadable(doc);
    var port := IntSetting(doc, CONNECTION, PORT);
    log, hasErrors := Check(log, hasErrors, PortOutOfRange, port.value <= 0 || port.value > 65535);
    var pool := IntSetting(doc, POOL, MAX_POOL_SIZE);
    if pool.Err? {
      return log, Threw(pool.error);
    }
    log, hasErrors := Check(log, hasErrors, PoolSizeNotPositive, pool.value <= 0);
    var c := Checked(host.value, database.value, username.value, password.value, port.value, pool.value);
    assert CheckedOf(doc) == Ok(c);
    verdict := if hasErrors then Rejected else Accepted;
  }

  /** Whether one of the critical errors applies. */
  predicate HasCriticalError(c: Checked) {
    c.host == [] || c.database == [] || c.username == [] || c.port <= 0 || c.port > 65535 || c.maxPoolSize <= 0
  }

  /** An error is among the problems found exactly when a critical error applies. */
  lemma ErrorsFound(c: Checked)
    ensures (exists p | p in Found(c) :: IsError(p)) <==> HasCriticalError(c)
  {
    if c.host == [] { FoundMeaning(c, EmptyHost); }
    if c.database == [] { FoundMeaning(c, EmptyDatabase); }
    if c.username == [] { FoundMeaning(c, EmptyUsername); }
    if c.port <= 0 || c.port > 65535 { FoundMeaning(c, PortOutOfRange); }
    if c.maxPoolSize <= 0 { FoundMeaning(c, PoolSizeNotPositive); }
    if exists p | p in Found(c) :: IsError(p) {
      var p :| p in Found(c) && IsError(p);
      FoundMeaning(c, p);
    }
  }

  /**
   * The validator throws its "critical errors" exception exactly when it
   * has logged an error, that is, when the host, the database or the user
   * name is empty, the port lies outside 1..65535, or the pool size is not
   * positive. The default password is logged but never decides the verdict.
   */
  lemma RejectedExactly(doc: Document)
    ensures VerdictOf(doc) == Rejected <==>
      CheckedOf(doc).Ok? && exists p | p in Found(CheckedOf(doc).value) :: IsError(p)
    ensures VerdictOf(doc) == Accepted <==>
      CheckedOf(doc).Ok? && forall p | p in Found(CheckedOf(doc).value) :: p == DefaultPassword
  {
    var r := CheckedOf(doc);
    if r.Ok? {
      ErrorsFound(r.value);
    }
  }

  /** A setting the validator reads that holds the wrong type, or null, makes it throw instead of judging. */
  lemma WrongTypeThrows(doc: Document, key: JString)
    requires key == HOST || key == DATABASE || key == USERNAME || key == PASSWORD
    requires CONNECTION in doc && doc[CONNECTION].VMap? && key in doc[CONNECTION].entries
    requires !doc[CONNECTION].entries[key].VString?
    ensures VerdictOf(doc).Threw?
  {
  }

  // ----- The JDBC URL -----

  const AMP: u16 := 38  // '&'

  /** `StringBuilder.append(String)`: a null reference appends "null". */
  function Text(r: StringRef): JString {
    match r
    case NullRef => J("null")
    case Chars(s) => s
  }

  /** The settings `buildJdbcUrl` reads, in the order it reads them. */
  datatype UrlSettings = UrlSettings(
    host: StringRef, port: int32, database: StringRef,
    useSsl: bool, serverTimezone: StringRef, allowPublicKeyRetrieval: bool, useUnicode: bool, characterEncoding: StringRef,
    cachePrepStmts: bool, prepStmtCacheSize: int32, prepStmtCacheSqlLimit: int32, useServerPrepStmts: bool)

  function UrlSettingsOf(doc: Document): Result<UrlSettings, ConfigError> {
    var host :- StringSetting(doc, CONNECTION, HOST);
    var port :- IntSetting(doc, CONNECTION, PORT);
    var database :- StringSetting(doc, CONNECTION, DATABASE);
    var ssl :- BoolSetting(doc, OPTIONS, USE_SSL);
    var timezone :- StringSetting(doc, OPTIONS, SERVER_TIMEZONE);
    var keyRetrieval :- BoolSetting(doc, OPTIONS, ALLOW_PUBLIC_KEY_RETRIEVAL);
    var unicode :- BoolSetting(doc, OPTIONS, USE_UNICODE);
    var encoding :- StringSetting(doc, OPTIONS, CHARACTER_ENCODING);
    var cache :- BoolSetting(doc, PERFORMANCE, CACHE_PREP_STMTS);
    var cacheSize :- IntSetting(doc, PERFORMANCE, PREP_STMT_CACHE_SIZE);
    var sqlLimit :- IntSetting(doc, PERFORMANCE, PREP_STMT_CACHE_SQL_LIMIT);
    var serverStmts :- BoolSetting(doc, PERFORMANCE, USE_SERVER_PREP_STMTS);
    Ok(UrlSettings(host, port, database, ssl, timezone, keyRetrieval, unicode, encoding, cache, cacheSize, sqlLimit, serverStmts))
  }

  /** "jdbc:mysql://host:port/database", the part before the query. */
  function Address(u: UrlSettings): JString {
    J("jdbc:mysql://") + Text(u.host) + J(":") + Dec(u.port) + J("/") + Text(u.database)
  }

  /** The parameter names of the URL, each with its '='. */
  const USE_SSL_PARAM: JString := J("useSSL=")
  const SERVER_TIMEZONE_PARAM: JString := J("serverTimezone=")
  const ALLOW_PUBLIC_KEY_RETRIEVAL_PARAM: JString := J("allowPublicKeyRetrieval=")
  const USE_UNICODE_PARAM: JString := J("useUnicode=")
  const CHARACTER_ENCODING_PARAM: JString := J("characterEncoding=")
  const CACHE_PREP_STMTS_PARAM: JString := J("cachePrepStmts=")
  const PREP_STMT_CACHE_SIZE_PARAM: JString := J("prepStmtCacheSize=")
  const PREP_STMT_CACHE_SQL_LIMIT_PARAM: JString := J("prepStmtCacheSqlLimit=")
  const USE_SERVER_PREP_STMTS_PARAM: JString := J("useServerPrepStmts=")

  /** The nine `name=value` parameters, in the order the builder appends them. */
  function QueryParameters(u: UrlSettings): seq<JString> {
    [ USE_SSL_PARAM + BoolString(u.useSsl),
      SERVER_TIMEZONE_PARAM + Text(u.serverTimezone),
      ALLOW_PUBLIC_KEY_RETRIEVAL_PARAM + BoolString(u.allowPublicKeyRetrieval),
      USE_UNICODE_PARAM + BoolString(u.useUnicode),
      CHARACTER_ENCODING_PARAM + Text(u.characterEncoding),
      CACHE_PREP_STMTS_PARAM + BoolString(u.cachePrepStmts),
      PREP_STMT_CACHE_SIZE_PARAM + Dec(u.prepStmtCacheSize),
      PREP_STMT_CACHE_SQL_LIMIT_PARAM + Dec(u.prepStmtCacheSqlLimit),
      USE_SERVER_PREP_STMTS_PARAM + BoolString(u.useServerPrepStmts) ]
  }

  /** `pieces` with `sep` between each two. */
  function Join(sep: u16, pieces: seq<JString>): JString
    requires |pieces| >= 1
  {
    if |pieces| == 1 then pieces[0] else pieces[0] + [sep] + Join(sep, pieces[1..])
  }

  /** The URL text: the address, '?', and the parameters separated by '&'. */
  function JdbcUrl(u: UrlSettings): JString {
    Address(u) + J("?") + Join(AMP, QueryParameters(u))
  }

  /** `buildJdbcUrl`: the first getter that throws ends it. */
  function BuildJdbcUrl(doc: Document): Result<JString, ConfigError> {
    var u :- UrlSettingsOf(doc);
    Ok(JdbcUrl(u))
  }

  /** Splitting a joined text at the separator gives the pieces back, when no piece holds it. */
  lemma {:induction false} SplitJoin(sep: u16, pieces: seq<JString>)
    requires |pieces| >= 1
    requires forall i | 0 <= i < |pieces| :: sep !in pieces[i]
    ensures Split(sep, Join(sep, pieces)) == pieces
  {
    if |pieces| == 1 {
      SplitNoSeparator(pieces[0], sep);
    } else {
      SplitJoin(sep, pieces[1..]);
      SplitAppend(sep, pieces[0], Join(sep, pieces[1..]));
    }
  }

  /** Text with no separator in front of the first piece joins that piece. */
  lemma {:induction false} SplitPrefix(sep: u16, a: JString, b: JString)
    requires sep !in a
    ensures Split(sep, a + b) == [a + Split(sep, b)[0]] + Split(sep, b)[1..]
  {
    if a == [] {
      var t := Split(sep, b);
      assert a + b == b && a + t[0] == t[0];
      assert [t[0]] + t[1..] == t;
    } else {
      var s := a + b;
      assert s[0] == a[0] && s[0] != sep;
      assert s[1..] == a[1..] + b;
      SplitPrefix(sep, a[1..], b);
      var t := Split(sep, s[1..]);
      assert t[0] == a[1..] + Split(sep, b)[0];
      assert t[1..] == Split(sep, b)[1..];
      assert [a[0]] + t[0] == a + Split(sep, b)[0];
    }
  }

  lemma NoCharInLiteral(s: string, c: char)
    requires Bmp(s) && c !in s && c as int < 0x1_0000
    ensures c as int !in J(s)
  {
    forall i | 0 <= i < |s|
      ensures J(s)[i] != c as int
    {
      assert s[i] in s;
    }
  }

  lemma NoAmpInValues(n: int, b: bool)
    ensures AMP !in Dec(n) && AMP !in BoolString(b)
  {
    DecCharacters(n);
    NoCharInLiteral("true", '&');
    NoCharInLiteral("false", '&');
  }

  lemma AddressHasNoAmp(u: UrlSettings)
    requires AMP !in Text(u.host) && AMP !in Text(u.database)
    ensures AMP !in Address(u) + J("?")
  {
    NoAmpInValues(u.port, true);
    NoCharInLiteral("jdbc:mysql://", '&');
    NoCharInLiteral(":", '&');
    NoCharInLiteral("/", '&');
    NoCharInLiteral("?", '&');
  }

  // No parameter name holds '&'.
  lemma UseSslNameHasNoAmp() ensures AMP !in USE_SSL_PARAM { NoCharInLiteral("useSSL=", '&'); }
  lemma ServerTimezoneNameHasNoAmp() ensures AMP !in SERVER_TIMEZONE_PARAM { NoCharInLiteral("serverTimezone=", '&'); }
  lemma AllowPublicKeyRetrievalNameHasNoAmp() ensures AMP !in ALLOW_PUBLIC_KEY_RETRIEVAL_PARAM { NoCharInLiteral("allowPublicKeyRetrieval=", '&'); }
  lemma UseUnicodeNameHasNoAmp() ensures AMP !in USE_UNICODE_PARAM { NoCharInLiteral("useUnicode=", '&'); }
  lemma CharacterEncodingNameHasNoAmp() ensures AMP !in CHARACTER_ENCODING_PARAM { NoCharInLiteral("characterEncoding=", '&'); }
  lemma CachePrepStmtsNameHasNoAmp() ensures AMP !in CACHE_PREP_STMTS_PARAM { NoCharInLiteral("cachePrepStmts=", '&'); }
  lemma PrepStmtCacheSizeNameHasNoAmp() ensures AMP !in PREP_STMT_CACHE_SIZE_PARAM { NoCharInLiteral("prepStmtCacheSize=", '&'); }
  lemma PrepStmtCacheSqlLimitNameHasNoAmp() ensures AMP !in PREP_STMT_CACHE_SQL_LIMIT_PARAM { NoCharInLiteral("prepStmtCacheSqlLimit=", '&'); }
  lemma UseServerPrepStmtsNameHasNoAmp() ensures AMP !in USE_SERVER_PREP_STMTS_PARAM { NoCharInLiteral("useServerPrepStmts=", '&'); }

  lemma ParametersHaveNoAmp(u: UrlSettings)
    requires AMP !in Text(u.serverTimezone) && AMP !in Text(u.characterEncoding)
    ensures forall i | 0 <= i < |QueryParameters(u)| :: AMP !in QueryParameters(u)[i]
  {
    NoAmpInValues(u.prepStmtCacheSize, u.useSsl);
    NoAmpInValues(u.prepStmtCacheSqlLimit, u.allowPublicKeyRetrieval);
    NoAmpInValues(0, u.useUnicode);
    NoAmpInValues(0, u.cachePrepStmts);
    NoAmpInValues(0, u.useServerPrepStmts);
    UseSslNameHasNoAmp();
    ServerTimezoneNameHasNoAmp();
    AllowPublicKeyRetrievalNameHasNoAmp();
    UseUnicodeNameHasNoAmp();
    CharacterEncodingNameHasNoAmp();
    CachePrepStmtsNameHasNoAmp();
    PrepStmtCacheSizeNameHasNoAmp();
    PrepStmtCacheSqlLimitNameHasNoAmp();
    UseServerPrepStmtsNameHasNoAmp();
  }

  /**
   * The URL starts with "jdbc:mysql://host:port/database?" and, when the
   * host, the database, the time zone and the encoding hold no '&', it cuts
   * at '&' into exactly the nine parameters in the builder's order, the first
   * one still behind the address.
   */
  lemma JdbcUrlParameters(u: UrlSettings)
    requires AMP !in Text(u.host) && AMP !in Text(u.database)
    requires AMP !in Text(u.serverTimezone) && AMP !in Text(u.characterEncoding)
    ensures JdbcUrl(u)[..|Address(u)| + 1] == Address(u) + J("?")
    ensures Split(AMP, JdbcUrl(u)) == [Address(u) + J("?") + QueryParameters(u)[0]] + QueryParameters(u)[1..]
  {
    var q := QueryParameters(u);
    var a := Address(u) + J("?");
    ParametersHaveNoAmp(u);
    SplitJoin(AMP, q);
    AddressHasNoAmp(u);
    SplitPrefix(AMP, a, Join(AMP, q));
    assert JdbcUrl(u) == a + Join(AMP, q);
  }

  // ----- The configuration object -----

  /** `DatabaseConfig`: what the database manager connects with. */
  datatype DatabaseConfig = DatabaseConfig(
    host: StringRef, port: int32, database: StringRef, username: StringRef, password: StringRef,
    maxPoolSize: int32, minIdle: int32, connectionTimeout: int64, idleTimeout: int64, maxLifetime: int64,
    jdbcUrl: JString)

  /** `createDatabaseConfig`: the constructor's arguments are read left to right, the URL last. */
  function CreateDatabaseConfig(doc: Document): Result<DatabaseConfig, ConfigError> {
    var host :- StringSetting(doc, CONNECTION, HOST);
    var port :- IntSetting(doc, CONNECTION, PORT);
    var database :- StringSetting(doc, CONNECTION, DATABASE);
    var username :- StringSetting(doc, CONNECTION, USERNAME);
    var password :- StringSetting(doc, CONNECTION, PASSWORD);
    var maxPoolSize :- IntSetting(doc, POOL, MAX_POOL_SIZE);
    var minIdle :- IntSetting(doc, POOL, MIN_IDLE);
    var connectionTimeout :- LongSetting(doc, POOL, CONNECTION_TIMEOUT);
    var idleTimeout :- LongSetting(doc, POOL, IDLE_TIMEOUT);
    var maxLifetime :- LongSetting(doc, POOL, MAX_LIFETIME);
    var url :- BuildJdbcUrl(doc);
    Ok(DatabaseConfig(host, port, database, username, password, maxPoolSize, minIdle,
                      connectionTimeout, idleTimeout, maxLifetime, url))
  }

  /** A section that is absent or a mapping: its getters cannot fail on it. */
  predicate SectionTyped(doc: Document, name: JString) {
    name !in doc || doc[name].VMap?
  }

  /** A string key whose value, if present, is a string or null. */
  predicate StringTyped(doc: Document, section: JString, key: JString) {
    SectionTyped(doc, section) &&
    (section !in doc || key !in doc[section].entries ||
     doc[section].entries[key].VString? || doc[section].entries[key].VNull?)
  }

  /** Every cast `createDatabaseConfig` makes succeeds. */
  predicate WellTyped(doc: Document) {
    SectionTyped(doc, CONNECTION) && SectionTyped(doc, POOL) && SectionTyped(doc, OPTIONS) && SectionTyped(doc, PERFORMANCE)
    && StringTyped(doc, CONNECTION, HOST) && StringTyped(doc, CONNECTION, DATABASE)
    && StringTyped(doc, CONNECTION, USERNAME) && StringTyped(doc, CONNECTION, PASSWORD)
    && StringTyped(doc, OPTIONS, SERVER_TIMEZONE) && StringTyped(doc, OPTIONS, CHARACTER_ENCODING)
  }

  lemma SectionOk(doc: Document, name: JString)
    ensures SectionOf(doc, name).Ok? <==> SectionTyped(doc, name)
  {
  }

  lemma StringSettingOk(doc: Document, section: JString, key: JString)
    ensures StringSetting(doc, section, key).Ok? <==> StringTyped(doc, section, key)
  {
  }

  /** `buildJdbcUrl` fails exactly when a cast among its own getters fails. */
  lemma UrlSettingsOk(doc: Document)
    ensures UrlSettingsOf(doc).Ok? <==>
      SectionTyped(doc, CONNECTION) && SectionTyped(doc, OPTIONS) && SectionTyped(doc, PERFORMANCE)
      && StringTyped(doc, CONNECTION, HOST) && StringTyped(doc, CONNECTION, DATABASE)
      && StringTyped(doc, OPTIONS, SERVER_TIMEZONE) && StringTyped(doc, OPTIONS, CHARACTER_ENCODING)
  {
    SectionOk(doc, CONNECTION);
    SectionOk(doc, OPTIONS);
    SectionOk(doc, PERFORMANCE);
    StringSettingOk(doc, CONNECTION, HOST);
    StringSettingOk(doc, CONNECTION, DATABASE);
    StringSettingOk(doc, OPTIONS, SERVER_TIMEZONE);
    StringSettingOk(doc, OPTIONS, CHARACTER_ENCODING);
  }

  /** `createDatabaseConfig` fails exactly when one of the casts it makes fails. */
  lemma CreateDatabaseConfigFails(doc: Document)
    ensures CreateDatabaseConfig(doc).Ok? <==> WellTyped(doc)
  {
    UrlSettingsOk(doc);
    SectionOk(doc, POOL);
    StringSettingOk(doc, CONNECTION, HOST);
    StringSettingOk(doc, CONNECTION, DATABASE);
    StringSettingOk(doc, CONNECTION, USERNAME);
    StringSettingOk(doc, CONNECTION, PASSWORD);
  }

  /**
   * The configuration's URL names the same host, port and database the
   * configuration holds itself.
   */
  lemma CreateDatabaseConfigUrl(doc: Document)
    requires CreateDatabaseConfig(doc).Ok?
    ensures UrlSettingsOf(doc).Ok?
    ensures var cfg := CreateDatabaseConfig(doc).value; var u := UrlSettingsOf(doc).value;
      u.host == cfg.host && u.port == cfg.port && u.database == cfg.database && cfg.jdbcUrl == JdbcUrl(u)
  {
  }
}
