/**
 * The lookup helpers of the settings module: where a configuration variable
 * comes from, how a log-level name becomes a number, and how the Postgres
 * server version is printed.
 *
 * The JSON file `config/environment_variables.json` is given as the map it
 * decodes to (empty when the file is missing or unreadable), and `os.environ`
 * as a map from names to strings.
 */
module Config {
  import opened Wrappers
  import opened Text

  // ---------------------------------------------------------------------
  // Environment variables
  // ---------------------------------------------------------------------

  /** Where a variable's value was found: a JSON value from the file, or the text of `os.environ`. */
  datatype Setting<V> = FromJsonFile(value: V) | FromEnviron(text: string)

  /** Django's `ImproperlyConfigured` exception with its message. */
  datatype ConfigError = ImproperlyConfigured(message: string)

  const MissingPrefix: string := "Unable to set the "
  const MissingSuffix: string := " variable from os.environ or JSON file"

  /** The ImproperlyConfigured message for a missing variable; the name can be read back from it. */
  function MissingVariableMessage(name: string): (m: string)
    ensures |m| == |MissingPrefix| + |name| + |MissingSuffix|
    ensures MissingVariableName(m) == Some(name)
  {
    var m := MissingPrefix + name + MissingSuffix;
    assert m[..|MissingPrefix|] == MissingPrefix;
    assert m[|m| - |MissingSuffix|..] == MissingSuffix;
    assert m[|MissingPrefix|..|m| - |MissingSuffix|] == name;
    m
  }

  /** The variable name a missing-variable message speaks of. */
  function MissingVariableName(m: string): Option<string>
  {
    if |m| >= |MissingPrefix| + |MissingSuffix|
       && m[..|MissingPrefix|] == MissingPrefix
       && m[|m| - |MissingSuffix|..] == MissingSuffix
    then Some(m[|MissingPrefix|..|m| - |MissingSuffix|])
    else None
  }

  /**
   * get_environment_variable: the JSON file wins, then the process
   * environment, otherwise the lookup fails with ImproperlyConfigured.
   */
  function GetEnvironmentVariable<V>(name: string, jsonVars: map<string, V>, environ: map<string, string>)
    : (r: Result<Setting<V>, ConfigError>)
    ensures r.Failure? <==> name !in jsonVars && name !in environ
    ensures name in jsonVars ==> r == Success(FromJsonFile(jsonVars[name]))
    ensures name !in jsonVars && name in environ ==> r == Success(FromEnviron(environ[name]))
    ensures r.Failure? ==> MissingVariableName(r.error.message) == Some(name)
  {
    if name in jsonVars then
      Success(FromJsonFile(jsonVars[name]))
    else if name in environ then
      Success(FromEnviron(environ[name]))
    else
      Failure(ImproperlyConfigured(MissingVariableMessage(name)))
  }

  /** Every value handed back was present in the map it says it came from. */
  lemma GetEnvironmentVariableFound<V>(name: string, jsonVars: map<string, V>, environ: map<string, string>)
    ensures match GetEnvironmentVariable(name, jsonVars, environ)
            case Success(FromJsonFile(v)) => name in jsonVars && jsonVars[name] == v
            case Success(FromEnviron(t)) => name !in jsonVars && name in environ && environ[name] == t
            case Failure(_) => name !in jsonVars && name !in environ
  {
  }

  /**
   * get_environment_variable_default: only `os.environ` is consulted, and a
   * missing name gives the default.
   */
  function GetEnvironmentVariableDefault(name: string, environ: map<string, string>, default: string)
    : (r: string)
    ensures name in environ ==> r == environ[name]
    ensures name !in environ ==> r == default
  {
    if name in environ then environ[name] else default
  }

  /**
   * The two lookups differ only where the JSON file speaks: with no JSON
   * entry for a name, a successful two-tier lookup returns what the
   * default-valued lookup returns, whatever the default.
   */
  lemma LookupsAgreeWithoutJsonEntry<V>(name: string, jsonVars: map<string, V>, environ: map<string, string>, default: string)
    requires name !in jsonVars
    ensures GetEnvironmentVariable(name, jsonVars, environ).Success?
            ==> GetEnvironmentVariable(name, jsonVars, environ)
                == Success(FromEnviron(GetEnvironmentVariableDefault(name, environ, default)))
    ensures GetEnvironmentVariable(name, jsonVars, environ).Failure?
            ==> GetEnvironmentVariableDefault(name, environ, default) == default
    ensures GetEnvironmentVariable(name, jsonVars, environ).Failure? <==> name !in environ
  {
  }

  // ---------------------------------------------------------------------
  // Logging levels
  // ---------------------------------------------------------------------

  /** The numbers of Python's `logging` module. */
  const CRITICAL: int := 50
  const ERROR: int := 40
  const WARN: int := 30
  const INFO: int := 20
  const DEBUG: int := 10

  const AvailableLoggingLevels: seq<string> := ["CRITICAL", "ERROR", "INFO", "WARN", "DEBUG"]

  predicate IsLevelNumber(n: int)
  {
    n == CRITICAL || n == ERROR || n == WARN || n == INFO || n == DEBUG
  }

  /**
   * convert_logging_level: the exact (case-sensitive) name of a level gives
   * its number; any other text falls off the end of the if-chain (`None`).
   */
  function ConvertLoggingLevel(descriptor: string): (r: Option<int>)
    ensures r.Some? <==> descriptor in AvailableLoggingLevels
    ensures r.Some? ==> IsLevelNumber(r.value)
  {
    if descriptor == "CRITICAL" then Some(CRITICAL)
    else if descriptor == "ERROR" then Some(ERROR)
    else if descriptor == "INFO" then Some(INFO)
    else if descriptor == "WARN" then Some(WARN)
    else if descriptor == "DEBUG" then Some(DEBUG)
    else None
  }

  /** The name that converts to a level number. */
  function LevelDescriptor(level: int): Option<string>
  {
    if level == CRITICAL then Some("CRITICAL")
    else if level == ERROR then Some("ERROR")
    else if level == INFO then Some("INFO")
    else if level == WARN then Some("WARN")
    else if level == DEBUG then Some("DEBUG")
    else None
  }

  /** Names and numbers are in one-to-one correspondence, in both directions. */
  lemma ConvertLoggingLevelBijective(descriptor: string, level: int)
    ensures descriptor in AvailableLoggingLevels
            ==> LevelDescriptor(ConvertLoggingLevel(descriptor).value) == Some(descriptor)
    ensures IsLevelNumber(level) ==> ConvertLoggingLevel(LevelDescriptor(level).value) == Some(level)
  {
  }

  /** Conversion compares the text as given: lower-case names are not levels. */
  lemma ConvertLoggingLevelIsCaseSensitive()
    ensures ConvertLoggingLevel("DEBUG") == Some(DEBUG)
    ensures ConvertLoggingLevel("debug") == None
    ensures ConvertLoggingLevel("Warn") == None
  {
  }

  /**
   * lookup_logging_level: the validity tests upper-case the descriptor and
   * the default, but the value returned converts the text as given.
   */
  function LookupLoggingLevel(descriptor: string, default: string := "ERROR"): (r: Option<int>)
    ensures Upper(descriptor) in AvailableLoggingLevels ==> r == ConvertLoggingLevel(descriptor)
    ensures Upper(descriptor) !in AvailableLoggingLevels && Upper(default) in AvailableLoggingLevels
            ==> r == ConvertLoggingLevel(default)
    ensures Upper(descriptor) !in AvailableLoggingLevels && Upper(default) !in AvailableLoggingLevels
            ==> r == Some(ERROR)
    ensures r.Some? ==> IsLevelNumber(r.value)
  {
    if Upper(descriptor) in AvailableLoggingLevels then
      ConvertLoggingLevel(descriptor)
    else if Upper(default) in AvailableLoggingLevels then
      ConvertLoggingLevel(default)
    else
      Some(ERROR)
  }

  lemma LevelNamesAreUpperCase(s: string)
    requires s in AvailableLoggingLevels
    ensures Upper(s) == s
  {
    UpperOfUpperCase(s);
  }

  /**
   * A lookup returns no level exactly when the text it converts is a
   * valid name only after upper-casing: the descriptor when that is valid
   * in some case, otherwise the default when that is valid in some case.
   */
  lemma LookupLoggingLevelNoneIff(descriptor: string, default: string)
    ensures LookupLoggingLevel(descriptor, default).None? <==>
            (Upper(descriptor) in AvailableLoggingLevels && descriptor !in AvailableLoggingLevels)
            || (Upper(descriptor) !in AvailableLoggingLevels
                && Upper(default) in AvailableLoggingLevels && default !in AvailableLoggingLevels)
  {
  }

  /** An exact level name is always honoured, whatever the default. */
  lemma LookupLoggingLevelExactName(descriptor: string, default: string)
    requires descriptor in AvailableLoggingLevels
    ensures LookupLoggingLevel(descriptor, default) == ConvertLoggingLevel(descriptor)
    ensures LookupLoggingLevel(descriptor, default).Some?
  {
    LevelNamesAreUpperCase(descriptor);
  }

  /** The quirk: "DEBUG" gives 10 but "debug" gives no level at all. */
  lemma LookupLoggingLevelCaseQuirk()
    ensures LookupLoggingLevel("DEBUG") == Some(DEBUG)
    ensures LookupLoggingLevel("debug") == None
  {
    LevelNamesAreUpperCase("DEBUG");
    assert Upper("debug") == "DEBUG" by {
      assert Upper("debug") == [UpperChar('d')] + Upper("ebug");
    }
  }

  /** A text whose initial letter starts no level name is not a level name in any case. */
  lemma NotALevelName(s: string)
    requires s != []
    requires UpperChar(s[0]) !in {'C', 'E', 'I', 'W', 'D'}
    ensures Upper(s) !in AvailableLoggingLevels
  {
    assert Upper(s)[0] == UpperChar(s[0]);
  }

  /** An unknown descriptor falls back to the default, and an unknown default to ERROR. */
  lemma LookupLoggingLevelFallback()
    ensures LookupLoggingLevel("verbose", "DEBUG") == Some(DEBUG)
    ensures LookupLoggingLevel("verbose", "loud") == Some(ERROR)
  {
    NotALevelName("verbose");
    NotALevelName("loud");
    LevelNamesAreUpperCase("DEBUG");
  }

  // ---------------------------------------------------------------------
  // Postgres version
  // ---------------------------------------------------------------------

  /** A five-character version (Postgres 9.x, e.g. "90624") gets a leading space. */
  function PadVersion(version: string): (p: string)
    ensures |p| == if |version| == 5 then 6 else |version|
    ensures p[|p| - |version|..] == version
    ensures |version| == 5 ==> p[0] == ' '
    ensures |version| != 5 ==> p == version
  {
    if |version| == 5 then " " + version else version
  }

  /**
   * get_postgres_version without the database: `serverVersion` is the text
   * of the connection's `server_version`, or None when reading it failed.
   */
  function GetPostgresVersion(serverVersion: Option<string>): (r: string)
    ensures serverVersion.None? <==> r == "fail"
    ensures serverVersion.Some? ==> |r| == Min(6, |PadVersion(serverVersion.value)|) + 2
  {
    match serverVersion
    case None => "fail"
    case Some(version) =>
      var v := PadVersion(version);
      var r := Slice(v, 0, 2) + "." + Slice(v, 2, 4) + "." + Slice(v, 4, 6);
      assert r[|Slice(v, 0, 2)|] == '.';
      r
  }

  /**
   * The formatted version is the first six characters of the padded
   * version with two dots put in: removing the dots gives them back.
   */
  lemma PostgresVersionKeepsDigits(version: string)
    requires '.' !in version
    ensures WithoutDots(GetPostgresVersion(Some(version))) == PadVersion(version)[..Min(6, |PadVersion(version)|)]
  {
    var v := PadVersion(version);
    assert '.' !in v by {
      if |version| == 5 {
        assert forall i :: 1 <= i < |v| ==> v[i] == version[i - 1];
      }
    }
    var a, b, c := Slice(v, 0, 2), Slice(v, 2, 4), Slice(v, 4, 6);
    WithoutDotsOfDotted(a, b, c);
    SliceSplit(v, 0, 2, 4);
    SliceSplit(v, 0, 4, 6);
  }

  /**
   * The two dots of the formatted version sit right after the first two and
   * the first four characters of the padded version, and nowhere else.
   */
  lemma PostgresVersionDotPositions(version: string)
    requires '.' !in version
    ensures var r, v := GetPostgresVersion(Some(version)), PadVersion(version);
            forall i :: 0 <= i < |r| ==> (r[i] == '.' <==> i == Min(2, |v|) || i == Min(4, |v|) + 1)
  {
    var v := PadVersion(version);
    assert '.' !in v by {
      if |version| == 5 {
        assert forall i :: 1 <= i < |v| ==> v[i] == version[i - 1];
      }
    }
    var a, b, c := Slice(v, 0, 2), Slice(v, 2, 4), Slice(v, 4, 6);
    SliceSplit(v, 0, 2, 4);
    SliceSplit(v, 0, 4, 6);
    DotsOfDotted(a, b, c);
  }

  /** Postgres 12.5 reports 120005, formatted "12.00.05". */
  lemma PostgresVersionSixDigits()
    ensures GetPostgresVersion(Some("120005")) == "12.00.05"
  {
  }

  /** Postgres 9.6.24 reports 90624, padded to " 90624" and formatted " 9.06.24". */
  lemma PostgresVersionFiveDigits()
    ensures GetPostgresVersion(Some("90624")) == " 9.06.24"
  {
  }

  /** Slices past the end are empty: "1" formats as "1..". */
  lemma PostgresVersionShort()
    ensures GetPostgresVersion(Some("1")) == "1.."
  {
  }
}
