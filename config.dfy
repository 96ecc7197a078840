/**
 * config.py: what the bot reads from its environment when it starts. A
 * `.env` file is merged into the environment on a local machine without ever
 * overriding a variable already set; the hosting platform is recognised from
 * marker variables, and it decides the download limits; a missing bot token
 * stops the process. The environment is a map from names to values and the
 * `.env` file, when it exists, the sequence of its lines.
 */
module Config {
  import opened Wrappers
  import opened Text

  // ----- load_env_file -----

  /**
   * One line of a `.env` file: after stripping, a blank line, a comment
   * (starting with '#') and a line without '=' are skipped; otherwise the
   * line is split at its first '=' and the name and value are stripped.
   */
  function ParseEnvLine(line: string): Option<(string, string)>
  {
    var l := Strip(line);
    if l == [] || l[0] == '#' then None
    else match SplitOnce(l, "=")
      case None => None
      case Some((k, v)) => Some((Strip(k), Strip(v)))
  }

  /** Blank lines, comments and lines without '=' are skipped. */
  lemma SkippedLines(line: string)
    ensures Strip(line) == [] ==> ParseEnvLine(line).None?
    ensures Strip(line) != [] && Strip(line)[0] == '#' ==> ParseEnvLine(line).None?
    ensures !Contains(Strip(line), "=") ==> ParseEnvLine(line).None?
  {
  }

  /** A name without '=' is cut off at the '=' that follows it. */
  lemma SplitAtFirstEquals(name: string, value: string)
    requires '=' !in name
    ensures SplitOnce(name + "=" + value, "=") == Some((name, value))
  {
    var l := name + "=" + value;
    assert OccursAt(l, "=", |name|) by {
      assert l[|name|..|name| + 1] == "=";
    }
    forall j | 0 <= j < |name|
      ensures !OccursAt(l, "=", j)
    {
      assert l[j] == name[j];
    }
    assert IndexOf(l, "=") == Some(|name|);
    assert l[..|name|] == name && l[|name| + 1..] == value;
  }

  /**
   * `NAME=value` is read back as the pair, for a name that is not a comment,
   * has no '=' and no surrounding blanks, and a value without surrounding
   * blanks; the value may itself contain '=', and the name may be empty.
   */
  lemma EnvLineRoundTrip(name: string, value: string)
    requires name == [] || (name[0] != '#' && !IsSpace(name[0]) && !IsSpace(name[|name| - 1]))
    requires '=' !in name
    requires value == [] || (!IsSpace(value[0]) && !IsSpace(value[|value| - 1]))
    ensures ParseEnvLine(name + "=" + value) == Some((name, value))
  {
    var l := name + "=" + value;
    assert l[0] == if name == [] then '=' else name[0];
    assert l[|l| - 1] == if value == [] then '=' else value[|value| - 1];
    StripNoEdgeSpace(l);
    SplitAtFirstEquals(name, value);
    StripNoEdgeSpace(name);
    StripNoEdgeSpace(value);
  }

  /** The assignment each line makes, if any. */
  function Assignments(lines: seq<string>): (r: seq<Option<(string, string)>>)
    ensures |r| == |lines|
    ensures forall i :: 0 <= i < |lines| ==> r[i] == ParseEnvLine(lines[i])
  {
    seq(|lines|, i requires 0 <= i < |lines| => ParseEnvLine(lines[i]))
  }

  /**
   * Whether `os.environ[name] = value` raises ValueError: an empty name, or a
   * NUL character in the name or the value.
   */
  predicate Illegal(name: string, value: string)
  {
    name == [] || '\0' in name || '\0' in value
  }

  /**
   * One line's effect: nothing for a skipped line or a name already set,
   * the new variable otherwise, or `None` when the assignment raises.
   */
  function Apply(vars: map<string, string>, a: Option<(string, string)>): Option<map<string, string>>
  {
    match a
    case None => Some(vars)
    case Some((k, v)) =>
      if k in vars then Some(vars)
      else if Illegal(k, v) then None
      else Some(vars[k := v])
  }

  /**
   * The environment after the assignments `ops` are made in order. One that
   * raises ends the reading, in the function's `except`, keeping what the
   * earlier ones set.
   */
  function LoadAll(vars: map<string, string>, ops: seq<Option<(string, string)>>): map<string, string>
    decreases |ops|
  {
    if ops == [] then vars
    else match Apply(vars, ops[0])
      case None => vars
      case Some(vars') => LoadAll(vars', ops[1..])
  }

  /** Reading from the `i`-th assignment on is making that one, then reading on from the next. */
  lemma LoadStep(vars: map<string, string>, ops: seq<Option<(string, string)>>, i: nat)
    requires i < |ops|
    ensures LoadAll(vars, ops[i..]) == match Apply(vars, ops[i])
      case None => vars
      case Some(vars') => LoadAll(vars', ops[i + 1..])
  {
    assert ops[i..][0] == ops[i];
    assert ops[i..][1..] == ops[i + 1..];
  }

  /** Where one step of the reading leaves the rest of it. */
  lemma AfterStep(before: map<string, string>, after: map<string, string>,
                  ops: seq<Option<(string, string)>>, i: nat, raised: bool)
    requires i < |ops|
    requires Apply(before, ops[i]) == if raised then None else Some(after)
    ensures raised ==> LoadAll(before, ops[i..]) == before
    ensures !raised ==> LoadAll(before, ops[i..]) == LoadAll(after, ops[i + 1..])
  {
    LoadStep(before, ops, i);
  }

  /** The environment after reading the lines of a `.env` file. */
  function Loaded(vars: map<string, string>, lines: seq<string>): map<string, string>
  {
    LoadAll(vars, Assignments(lines))
  }

  /** Reading a `.env` file never removes or changes a variable that was already set. */
  lemma {:induction false} NeverOverrides(vars: map<string, string>, ops: seq<Option<(string, string)>>)
    decreases |ops|
    ensures forall k :: k in vars ==> k in LoadAll(vars, ops) && LoadAll(vars, ops)[k] == vars[k]
  {
    if ops != [] {
      match Apply(vars, ops[0])
      case None =>
      case Some(vars') => NeverOverrides(vars', ops[1..]);
    }
  }

  /** Every variable the file adds has the name and value of one of its lines. */
  lemma {:induction false} LoadedFromLines(vars: map<string, string>, ops: seq<Option<(string, string)>>)
    ensures forall k :: k in LoadAll(vars, ops) && k !in vars ==>
      exists i :: 0 <= i < |ops| && ops[i] == Some((k, LoadAll(vars, ops)[k]))
    decreases |ops|
  {
    if ops != [] {
      match Apply(vars, ops[0])
      case None =>
      case Some(vars') =>
        var rest := ops[1..];
        var r := LoadAll(vars', rest);
        assert LoadAll(vars, ops) == r;
        LoadedFromLines(vars', rest);
        NeverOverrides(vars', rest);
        forall k | k in r && k !in vars
          ensures exists i :: 0 <= i < |ops| && ops[i] == Some((k, r[k]))
        {
          if k in vars' {
            assert ops[0] == Some((k, r[k]));
          } else {
            var j :| 0 <= j < |rest| && rest[j] == Some((k, r[k]));
            assert ops[j + 1] == rest[j];
          }
        }
    }
  }

  /** No assignment of `ops` raises. */
  predicate AllLegal(ops: seq<Option<(string, string)>>)
  {
    forall i :: 0 <= i < |ops| && ops[i].Some? ==> !Illegal(ops[i].value.0, ops[i].value.1)
  }

  /**
   * In a file whose assignments all succeed, a variable not set beforehand
   * takes the value of the first line that names it: later lines for the
   * same name are ignored.
   */
  lemma {:induction false} FirstLineWins(vars: map<string, string>, ops: seq<Option<(string, string)>>, i: nat, k: string, v: string)
    requires AllLegal(ops)
    requires i < |ops| && ops[i] == Some((k, v)) && k !in vars
    requires forall j :: 0 <= j < i && ops[j].Some? ==> ops[j].value.0 != k
    ensures k in LoadAll(vars, ops) && LoadAll(vars, ops)[k] == v
    decreases i
  {
    var rest := ops[1..];
    var vars' := Apply(vars, ops[0]).value;
    assert LoadAll(vars, ops) == LoadAll(vars', rest);
    if i == 0 {
      NeverOverrides(vars', rest);
    } else {
      assert AllLegal(rest) by {
        forall j | 0 <= j < |rest| && rest[j].Some?
          ensures !Illegal(rest[j].value.0, rest[j].value.1)
        {
          assert rest[j] == ops[j + 1];
        }
      }
      forall j | 0 <= j < i - 1 && rest[j].Some?
        ensures rest[j].value.0 != k
      {
        assert rest[j] == ops[j + 1];
      }
      assert rest[i - 1] == ops[i];
      FirstLineWins(vars', rest, i - 1, k, v);
    }
  }

  /**
   * A line with an empty name, such as `=x` (by `EnvLineRoundTrip`), ends
   * the reading: neither it nor the lines after it are loaded.
   */
  lemma EmptyNameStopsReading(vars: map<string, string>, lines: seq<string>, value: string)
    requires "" !in vars
    requires |lines| > 0 && ParseEnvLine(lines[0]) == Some(("", value))
    ensures Loaded(vars, lines) == vars
  {
    var ops := Assignments(lines);
    assert Apply(vars, ops[0]).None?;
  }

  /** The process environment, which `load_env_file` updates in place. */
  class Environment {
    var vars: map<string, string>

    constructor (vars0: map<string, string>)
      ensures vars == vars0
    {
      vars := vars0;
    }

    /**
     * `load_env_file`: a missing `.env` changes nothing; otherwise its lines
     * are read in order, each accepted one setting its variable unless it is
     * set already, until an assignment raises.
     */
    method LoadEnvFile(file: Option<seq<string>>)
      modifies this
      ensures vars == (if file.Some? then Loaded(old(vars), file.value) else old(vars))
    {
      if file.None? {
        return;
      }
      var lines := file.value;
      ghost var ops := Assignments(lines);
      var i := 0;
      while i < |lines|
        invariant 0 <= i <= |lines|
        invariant |ops| == |lines|
        invariant LoadAll(vars, ops[i..]) == LoadAll(old(vars), ops)
      {
        ghost var before := vars;
        var raised := ReadLine(lines[i]);
        AfterStep(before, vars, ops, i, raised);
        if raised {
          return;
        }
        i := i + 1;
      }
    }

    /** One turn of the loop over the file: the line's assignment, if it makes one. */
    method ReadLine(line: string) returns (raised: bool)
      modifies this
      ensures Apply(old(vars), ParseEnvLine(line)) == if raised then None else Some(vars)
      ensures raised ==> vars == old(vars)
    {
      var a := ParseEnvLine(line);
      raised := false;
      if a.Some? {
        raised := Assign(a.value.0, a.value.1);
      }
    }

    /** `if key not in os.environ: os.environ[key] = value`, which raises for an illegal name or value. */
    method Assign(k: string, v: string) returns (raised: bool)
      modifies this
      ensures Apply(old(vars), Some((k, v))) == if raised then None else Some(vars)
      ensures raised ==> vars == old(vars)
    {
      raised := false;
      if k !in vars {
        if Illegal(k, v) {
          return true;
        }
        vars := vars[k := v];
      }
    }

    /**
     * The start-up of config.py: the `.env` file is read only when none of
     * RENDER, KOYEB and HEROKU is set to a non-empty value; the settings are
     * then derived from the resulting environment.
     */
    method Start(file: Option<seq<string>>) returns (r: Startup)
      modifies this
      ensures vars == EnvAtStart(old(vars), file)
      ensures r == StartupOf(vars)
    {
      if LoadsDotEnv(vars) {
        LoadEnvFile(file);
      }
      r := StartupOf(vars);
    }
  }

  // ----- the hosting platform -----

  /** `os.environ.get(name)` as a value: a missing name reads as `default`. */
  function Get(vars: map<string, string>, name: string, default: string): string
  {
    if name in vars then vars[name] else default
  }

  /** `not os.environ.get(name)`: unset, or set to the empty string. */
  predicate Unset(vars: map<string, string>, name: string)
  {
    Get(vars, name, "") == ""
  }

  /** The guard of `load_env_file()`'s call. */
  predicate LoadsDotEnv(vars: map<string, string>)
  {
    Unset(vars, "RENDER") && Unset(vars, "KOYEB") && Unset(vars, "HEROKU")
  }

  /** The environment after the guarded `.env` reading. */
  function EnvAtStart(vars: map<string, string>, file: Option<seq<string>>): map<string, string>
  {
    if LoadsDotEnv(vars) && file.Some? then Loaded(vars, file.value) else vars
  }

  /** On a deployment marked by RENDER, KOYEB or HEROKU, the `.env` file is never read. */
  lemma DeployedIgnoresDotEnv(vars: map<string, string>, file: Option<seq<string>>)
    requires !Unset(vars, "RENDER") || !Unset(vars, "KOYEB") || !Unset(vars, "HEROKU")
    ensures EnvAtStart(vars, file) == vars
  {
  }

  /** The hosting platforms config.py tells apart, and local development. */
  datatype Host = Koyeb | Render | Heroku | PythonAnywhere | Local

  /**
   * The platform whose settings apply: a marker variable counts when it is
   * present, even if empty, and KOYEB wins over RENDER, RENDER over HEROKU,
   * HEROKU over PYTHONANYWHERE.
   */
  function HostOf(vars: map<string, string>): (h: Host)
    ensures h == Koyeb <==> "KOYEB" in vars
    ensures h == Render <==> "RENDER" in vars && "KOYEB" !in vars
    ensures h == Heroku <==> "HEROKU" in vars && "RENDER" !in vars && "KOYEB" !in vars
    ensures h == PythonAnywhere <==> "PYTHONANYWHERE" in vars && "HEROKU" !in vars && "RENDER" !in vars && "KOYEB" !in vars
  {
    if "KOYEB" in vars then Koyeb
    else if "RENDER" in vars then Render
    else if "HEROKU" in vars then Heroku
    else if "PYTHONANYWHERE" in vars then PythonAnywhere
    else Local
  }

  /** `LOCAL`: none of the four markers is present. */
  predicate IsLocal(vars: map<string, string>)
  {
    "RENDER" !in vars && "KOYEB" !in vars && "HEROKU" !in vars && "PYTHONANYWHERE" !in vars
  }

  /** The local settings apply exactly when `LOCAL` holds. */
  lemma LocalIffNoMarker(vars: map<string, string>)
    ensures HostOf(vars) == Local <==> IsLocal(vars)
  {
  }

  /**
   * A marker set to the empty string is present for the platform test but
   * not for the `.env` guard: the file is read, and a hosted platform's
   * settings still apply.
   */
  lemma EmptyMarker(vars: map<string, string>, file: Option<seq<string>>)
    requires vars == map["RENDER" := ""]
    ensures LoadsDotEnv(vars)
    ensures HostOf(EnvAtStart(vars, file)) != Local
  {
    if file.Some? {
      NeverOverrides(vars, Assignments(file.value));
    }
  }

  /**
   * A marker that only the `.env` file sets, on its first line (such as
   * `KOYEB=1`, by `EnvLineRoundTrip`), still selects its platform, since the
   * platform is decided after the file is read.
   */
  lemma MarkerFromDotEnv(vars: map<string, string>, lines: seq<string>, value: string)
    requires LoadsDotEnv(vars) && "KOYEB" !in vars
    requires |lines| > 0 && ParseEnvLine(lines[0]) == Some(("KOYEB", value)) && '\0' !in value
    ensures HostOf(EnvAtStart(vars, Some(lines))) == Koyeb
  {
    var ops := Assignments(lines);
    KoyebLegal(value);
    FirstAssignmentSets(vars, ops, "KOYEB", value);
  }

  lemma KoyebLegal(value: string)
    requires '\0' !in value
    ensures !Illegal("KOYEB", value)
  {
  }

  lemma FirstAssignmentSets(vars: map<string, string>, ops: seq<Option<(string, string)>>, k: string, v: string)
    requires |ops| > 0 && ops[0] == Some((k, v)) && k !in vars && !Illegal(k, v)
    ensures k in LoadAll(vars, ops)
  {
    NeverOverrides(vars[k := v], ops[1..]);
  }

  /** `DEBUG`: the variable reads "true" in any letter case, and the host is local. */
  predicate Debug(vars: map<string, string>)
  {
    LowerAscii(Get(vars, "DEBUG", "false")) == "true" && IsLocal(vars)
  }

  lemma FalseIsNotTrue()
    ensures LowerAscii("false") != "true"
  {
    assert LowerAscii("false")[0] == 'f';
  }

  /** Debugging is never on for a hosted deployment, whatever DEBUG says. */
  lemma DebugOnlyLocal(vars: map<string, string>)
    ensures Debug(vars) ==> HostOf(vars) == Local
    ensures IsLocal(vars) && Get(vars, "DEBUG", "false") == "TRUE" ==> Debug(vars)
    ensures "DEBUG" !in vars ==> !Debug(vars)
  {
    if IsLocal(vars) && Get(vars, "DEBUG", "false") == "TRUE" {
      var l := LowerAscii("TRUE");
      assert l[0] == 't' && l[1] == 'r' && l[2] == 'u' && l[3] == 'e';
      assert l == "true";
    }
    if "DEBUG" !in vars {
      FalseIsNotTrue();
    }
  }

  // ----- the per-host settings -----

  /** The limits and switches each host runs with. */
  datatype Settings = Settings(
    maxTracksPerUser: int, maxDownloadSizeMb: int, downloadTimeout: int,
    youtubeMaxRetries: int, youtubeTimeout: Option<int>, enableProxy: bool, logLevel: string)

  /** `int(os.environ.get(name, default))`; `None` where `int` raises. */
  function IntSetting(vars: map<string, string>, name: string, default: string): Option<int>
  {
    ParseInt(Strip(Get(vars, name, default)))
  }

  /**
   * The settings for `host`: fixed values on the four platforms (only the
   * local machine sets a YouTube timeout); on the local machine each one
   * can be overridden from the environment, and a number that does not
   * parse makes the import raise.
   */
  function SettingsFor(host: Host, vars: map<string, string>): (r: Option<Settings>)
    ensures host != Local ==> r.Some? && r.value.youtubeTimeout.None? && r.value.logLevel == "INFO"
    ensures host == Local && r.Some? ==> r.value.youtubeTimeout.Some?
  {
    match host
    case Koyeb => Some(Settings(15, 100, 180, 5, None, true, "INFO"))
    case Render => Some(Settings(10, 50, 120, 3, None, false, "INFO"))
    case Heroku => Some(Settings(5, 25, 90, 2, None, false, "INFO"))
    case PythonAnywhere => Some(Settings(8, 40, 150, 3, None, true, "INFO"))
    case Local =>
      var size := IntSetting(vars, "MAX_DOWNLOAD_SIZE_MB", "500");
      var tracks := IntSetting(vars, "MAX_TRACKS_PER_USER", "50");
      var timeout := IntSetting(vars, "DOWNLOAD_TIMEOUT", "600");
      var retries := IntSetting(vars, "YOUTUBE_MAX_RETRIES", "10");
      var ytTimeout := IntSetting(vars, "YOUTUBE_TIMEOUT", "60");
      if size.None? || tracks.None? || timeout.None? || retries.None? || ytTimeout.None? then None
      else Some(Settings(tracks.value, size.value, timeout.value, retries.value, Some(ytTimeout.value),
                         LowerAscii(Get(vars, "ENABLE_PROXY", "false")) == "true",
                         Get(vars, "LOG_LEVEL", "DEBUG")))
  }

  /** A default that is a decimal numeral is the value the setting takes when the variable is unset. */
  lemma AppendDigit(n: nat, d: nat)
    requires d < 10 && n > 0
    ensures NatToString(10 * n + d) == NatToString(n) + [DigitChar(d)]
  {
    assert (10 * n + d) / 10 == n && (10 * n + d) % 10 == d;
  }

  lemma LocalNumerals()
    ensures NatToString(50) == "50" && NatToString(500) == "500" && NatToString(600) == "600"
    ensures NatToString(10) == "10" && NatToString(60) == "60"
  {
    AppendDigit(5, 0); AppendDigit(50, 0); AppendDigit(6, 0); AppendDigit(60, 0); AppendDigit(1, 0);
  }

  lemma AdminNumeral()
    ensures NatToString(7021944306) == "7021944306"
  {
    AppendDigit(7, 0); AppendDigit(70, 2); AppendDigit(702, 1); AppendDigit(7021, 9);
    AppendDigit(70219, 4); AppendDigit(702194, 4); AppendDigit(7021944, 3); AppendDigit(70219443, 0);
    AppendDigit(702194430, 6);
  }

  lemma DefaultSetting(vars: map<string, string>, name: string, n: nat)
    requires name !in vars
    ensures IntSetting(vars, name, NatToString(n)) == Some(n)
  {
    StripNoEdgeSpace(NatToString(n));
    IntRoundTrip(n);
    assert IntToString(n) == NatToString(n);
  }

  /**
   * The local machine with nothing overridden runs with 50 tracks, 500 MB,
   * 600 seconds, 10 retries, a 60-second YouTube timeout, no proxy and
   * DEBUG logging.
   */
  lemma LocalDefaults()
    ensures SettingsFor(Local, map[]) == Some(Settings(50, 500, 600, 10, Some(60), false, "DEBUG"))
  {
    LocalNumerals();
    DefaultSetting(map[], "MAX_DOWNLOAD_SIZE_MB", 500);
    DefaultSetting(map[], "MAX_TRACKS_PER_USER", 50);
    DefaultSetting(map[], "DOWNLOAD_TIMEOUT", 600);
    DefaultSetting(map[], "YOUTUBE_MAX_RETRIES", 10);
    DefaultSetting(map[], "YOUTUBE_TIMEOUT", 60);
    FalseIsNotTrue();
  }

  /** The hosted platforms, from most to least generous: KOYEB, RENDER, PYTHONANYWHERE, HEROKU. */
  lemma HostedLimitsOrdered(vars: map<string, string>)
    ensures SettingsFor(Koyeb, vars).value.maxTracksPerUser > SettingsFor(Render, vars).value.maxTracksPerUser
      > SettingsFor(PythonAnywhere, vars).value.maxTracksPerUser > SettingsFor(Heroku, vars).value.maxTracksPerUser
    ensures SettingsFor(Koyeb, vars).value.maxDownloadSizeMb > SettingsFor(Render, vars).value.maxDownloadSizeMb
      > SettingsFor(PythonAnywhere, vars).value.maxDownloadSizeMb > SettingsFor(Heroku, vars).value.maxDownloadSizeMb
  {
  }

  // ----- start-up -----

  /** What importing config.py ends in. */
  datatype Startup =
    | MissingToken(host: Host)       // prints a hint for the host and exits with status 1
    | BadNumber                      // an `int(...)` raised ValueError
    | Configured(host: Host, debug: bool, token: string, settings: Settings, adminId: int)

  /**
   * The module's top-level code after the `.env` step: an empty BOT_TOKEN
   * exits before the settings are read; a setting or ADMIN_ID that is not a
   * number raises.
   */
  function StartupOf(vars: map<string, string>): (r: Startup)
    ensures r.Configured? ==> r.token != "" && r.host == HostOf(vars) && (r.debug ==> r.host == Local)
  {
    var host := HostOf(vars);
    var token := Get(vars, "BOT_TOKEN", "");
    if token == "" then MissingToken(host)
    else match SettingsFor(host, vars)
      case None => BadNumber
      case Some(s) =>
        match IntSetting(vars, "ADMIN_ID", "7021944306")
        case None => BadNumber
        case Some(admin) => Configured(host, Debug(vars), token, s, admin)
  }

  /** Without a token the bot never starts, whatever else is configured. */
  lemma NoTokenNoStart(vars: map<string, string>)
    requires Get(vars, "BOT_TOKEN", "") == ""
    ensures StartupOf(vars) == MissingToken(HostOf(vars))
  {
  }

  /** With a token and the defaults, a hosted platform starts with the default administrator. */
  lemma HostedStart(vars: map<string, string>)
    requires Get(vars, "BOT_TOKEN", "") != "" && "ADMIN_ID" !in vars && !IsLocal(vars)
    ensures StartupOf(vars).Configured?
    ensures StartupOf(vars).adminId == 7021944306
    ensures StartupOf(vars).settings == SettingsFor(HostOf(vars), vars).value
  {
    AdminNumeral();
    DefaultSetting(vars, "ADMIN_ID", 7021944306);
  }
}
