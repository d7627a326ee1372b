/**
 * The configuration loader (`config/config.go`): ten required environment
 * variables, one check that none is empty, and the `Config` record built from them.
 * The process environment is a parameter; `log.Fatalf` is the `Failure` result.
 */
module Config {
  import opened Wrappers
  import Strings

  datatype Config = Config(
    cppHost: string,
    keycloakURL: string,
    keycloakRealm: string,
    clientID: string,
    clientSecret: string,
    databaseDSN: string,
    grafanaURL: string)

  /** The variables `LoadConfig` reads, all of them required. */
  const RequiredVariables: set<string> := {
    "CPP_HOST", "KEYCLOAK_URL", "KEYCLOAK_REALM", "CLIENT_ID", "CLIENT_SECRET",
    "POSTGRES_HOST", "POSTGRES_USER", "POSTGRES_PASSWORD", "POSTGRES_DB", "GRAFANA_URL"}

  /** `os.Getenv`: the value of a variable, the empty string when it is unset. */
  function Getenv(environment: map<string, string>, name: string): (value: string)
    ensures name !in environment ==> value == ""
    ensures name in environment ==> value == environment[name]
  {
    if name in environment then environment[name] else ""
  }

  /**
   * `checkEnvVars`: a key whose value is empty, or "" when there is none. Go visits
   * a map in an unspecified order, so which empty key is reported is a free choice.
   */
  method CheckEnvVars(envVars: map<string, string>) returns (missing: string)
    ensures (forall key | key in envVars :: envVars[key] != "") ==> missing == ""
    ensures (exists key | key in envVars :: envVars[key] == "") ==>
      missing in envVars && envVars[missing] == ""
    ensures "" !in envVars ==> (missing == "" <==> forall key | key in envVars :: envVars[key] != "")
  {
    var unvisited := envVars.Keys;
    while unvisited != {}
      invariant unvisited <= envVars.Keys
      invariant forall key | key in envVars && key !in unvisited :: envVars[key] != ""
      decreases unvisited
    {
      var key :| key in unvisited;
      if envVars[key] == "" {
        return key;
      }
      unvisited := unvisited - {key};
    }
    return "";
  }

  /** The connection string handed to the PostgreSQL driver, in keyword=value form. */
  function DatabaseDSN(host: string, user: string, password: string, dbname: string): string
  {
    "host=" + host + " " + "user=" + user + " " + "password=" + password + " " + "dbname=" + dbname + " " + "sslmode=disable"
  }

  /** The table `LoadConfig` builds: each required variable with its value. */
  function EnvVars(environment: map<string, string>): (envVars: map<string, string>)
    ensures forall name :: name in envVars <==> name in RequiredVariables
    ensures forall name | name in envVars :: envVars[name] == Getenv(environment, name)
  {
    map name | name in RequiredVariables :: Getenv(environment, name)
  }

  /**
   * `LoadConfig`: fails with the name of an empty variable when one of the ten is
   * empty (the process then exits), otherwise copies the values into a `Config`.
   */
  method LoadConfig(environment: map<string, string>) returns (r: Result<Config, string>)
    ensures r.Failure? <==> exists name | name in RequiredVariables :: Getenv(environment, name) == ""
    ensures r.Failure? ==> r.error in RequiredVariables && Getenv(environment, r.error) == ""
    ensures r.Success? ==> r.value == Config(
      Getenv(environment, "CPP_HOST"),
      Getenv(environment, "KEYCLOAK_URL"),
      Getenv(environment, "KEYCLOAK_REALM"),
      Getenv(environment, "CLIENT_ID"),
      Getenv(environment, "CLIENT_SECRET"),
      DatabaseDSN(
        Getenv(environment, "POSTGRES_HOST"), Getenv(environment, "POSTGRES_USER"),
        Getenv(environment, "POSTGRES_PASSWORD"), Getenv(environment, "POSTGRES_DB")),
      Getenv(environment, "GRAFANA_URL"))
  {
    var envVars := EnvVars(environment);
    var missingVar := CheckEnvVars(envVars);
    if missingVar != "" {
      return Failure(missingVar);
    }
    assert "" !in RequiredVariables;

    var cfg := Config(
      envVars["CPP_HOST"],
      envVars["KEYCLOAK_URL"],
      envVars["KEYCLOAK_REALM"],
      envVars["CLIENT_ID"],
      envVars["CLIENT_SECRET"],
      DatabaseDSN(envVars["POSTGRES_HOST"], envVars["POSTGRES_USER"], envVars["POSTGRES_PASSWORD"], envVars["POSTGRES_DB"]),
      envVars["GRAFANA_URL"]);
    return Success(cfg);
  }

  // ---------------------------------------------------------------- reading the DSN back

  /** A keyword=value field cut at its first '=' (a field without '=' is all keyword). */
  function KeywordValue(field: string): (string, string)
  {
    var r := Strings.Cut(field, '=');
    (r.0, r.1)
  }

  /** A keyword=value connection string read the simple way: fields split at spaces, each cut at its first '='. */
  function ParseDSN(dsn: string): seq<(string, string)>
  {
    var fields := Strings.Split(dsn, ' ');
    seq(|fields|, i requires 0 <= i < |fields| => KeywordValue(fields[i]))
  }

  /**
   * The DSN carries the four database settings under their own keywords and
   * `sslmode=disable`, as long as no value contains a space (values are not quoted).
   */
  lemma ParseDatabaseDSN(host: string, user: string, password: string, dbname: string)
    requires ' ' !in host && ' ' !in user && ' ' !in password && ' ' !in dbname
    ensures var parsed := ParseDSN(DatabaseDSN(host, user, password, dbname));
      && |parsed| == 5
      && parsed[0] == ("host", host) && parsed[1] == ("user", user) && parsed[2] == ("password", password)
      && parsed[3] == ("dbname", dbname) && parsed[4] == ("sslmode", "disable")
  {
    SplitDatabaseDSN(host, user, password, dbname);
    ParseFields(DatabaseDSN(host, user, password, dbname),
      "host=" + host, "user=" + user, "password=" + password, "dbname=" + dbname, "sslmode=disable");
    KeywordFields(host, user, password, dbname);
    SslModeField();
  }

  lemma SplitDatabaseDSN(host: string, user: string, password: string, dbname: string)
    requires ' ' !in host && ' ' !in user && ' ' !in password && ' ' !in dbname
    ensures Strings.Split(DatabaseDSN(host, user, password, dbname), ' ') ==
      ["host=" + host, "user=" + user, "password=" + password, "dbname=" + dbname, "sslmode=disable"]
  {
    var fields := DsnFields(host, user, password, dbname);
    Strings.SplitJoin(fields, ' ');
  }

  /** Each space-separated field of a DSN is read as its keyword=value pair. */
  lemma ParseFields(dsn: string, a: string, b: string, c: string, d: string, e: string)
    requires Strings.Split(dsn, ' ') == [a, b, c, d, e]
    ensures var parsed := ParseDSN(dsn);
      && |parsed| == 5
      && parsed[0] == KeywordValue(a) && parsed[1] == KeywordValue(b) && parsed[2] == KeywordValue(c)
      && parsed[3] == KeywordValue(d) && parsed[4] == KeywordValue(e)
  {
  }

  lemma KeywordFields(host: string, user: string, password: string, dbname: string)
    ensures KeywordValue("host=" + host) == ("host", host)
    ensures KeywordValue("user=" + user) == ("user", user)
    ensures KeywordValue("password=" + password) == ("password", password)
    ensures KeywordValue("dbname=" + dbname) == ("dbname", dbname)
  {
    KeywordField("host", "host=", host);
    KeywordField("user", "user=", user);
    KeywordField("password", "password=", password);
    KeywordField("dbname", "dbname=", dbname);
  }

  lemma SslModeField()
    ensures KeywordValue("sslmode=disable") == ("sslmode", "disable")
  {
    KeywordField("sslmode", "sslmode=", "disable");
    assert "sslmode=" + "disable" == "sslmode=disable";
  }

  /** A keyword of the DSN: lower-case letters only. */
  predicate LowerWord(keyword: string)
  {
    forall i | 0 <= i < |keyword| :: 'a' <= keyword[i] <= 'z'
  }

  lemma KeywordField(keyword: string, prefix: string, value: string)
    requires LowerWord(keyword) && prefix == keyword + "="
    ensures KeywordValue(prefix + value) == (keyword, value)
  {
    assert '=' !in keyword;
    assert prefix + value == keyword + ['='] + value;
    Strings.CutAtFirst(keyword, '=', value);
  }

  /** The DSN as its five space-free keyword=value fields joined by spaces. */
  lemma DsnFields(host: string, user: string, password: string, dbname: string) returns (fields: seq<string>)
    requires ' ' !in host && ' ' !in user && ' ' !in password && ' ' !in dbname
    ensures fields == ["host=" + host, "user=" + user, "password=" + password, "dbname=" + dbname, "sslmode=disable"]
    ensures forall f | f in fields :: ' ' !in f
    ensures Strings.Join(fields, ' ') == DatabaseDSN(host, user, password, dbname)
  {
    fields := ["host=" + host, "user=" + user, "password=" + password, "dbname=" + dbname, "sslmode=disable"];
    JoinFields(fields[0], fields[1], fields[2], fields[3], fields[4]);
  }

  lemma JoinFields(a: string, b: string, c: string, d: string, e: string)
    ensures Strings.Join([a, b, c, d, e], ' ') == a + " " + b + " " + c + " " + d + " " + e
  {
    assert [a, b, c, d, e][1..] == [b, c, d, e];
    assert [b, c, d, e][1..] == [c, d, e];
    assert [c, d, e][1..] == [d, e];
    assert [d, e][1..] == [e];
    assert Strings.Join([d, e], ' ') == d + " " + e;
    assert Strings.Join([c, d, e], ' ') == c + " " + (d + " " + e);
    assert Strings.Join([b, c, d, e], ' ') == b + " " + (c + " " + (d + " " + e));
  }

  /**
   * A password with a space splits into an extra field: the DSN does not quote its
   * values, so the password reads back as its part before the space.
   */
  lemma SpaceInPasswordSplitsDSN(host: string, user: string, before: string, after: string, dbname: string)
    requires ' ' !in host && ' ' !in user && ' ' !in before && ' ' !in after && ' ' !in dbname
    ensures var parsed := ParseDSN(DatabaseDSN(host, user, before + " " + after, dbname));
      |parsed| == 6 && parsed[2] == ("password", before)
  {
    var fields := SpacedPasswordFields(host, user, before, after, dbname);
    Strings.SplitJoin(fields, ' ');
    KeywordField("password", "password=", before);
  }

  lemma SpacedPasswordFields(host: string, user: string, before: string, after: string, dbname: string)
    returns (fields: seq<string>)
    requires ' ' !in host && ' ' !in user && ' ' !in before && ' ' !in after && ' ' !in dbname
    ensures |fields| == 6 && fields[2] == "password=" + before
    ensures forall f | f in fields :: ' ' !in f
    ensures Strings.Join(fields, ' ') == DatabaseDSN(host, user, before + " " + after, dbname)
  {
    fields := ["host=" + host, "user=" + user, "password=" + before, after, "dbname=" + dbname, "sslmode=disable"];
    SpacedPasswordJoin(host, user, before, after, dbname);
  }

  lemma SpacedPasswordJoin(host: string, user: string, before: string, after: string, dbname: string)
    ensures Strings.Join(["host=" + host, "user=" + user, "password=" + before, after, "dbname=" + dbname, "sslmode=disable"], ' ')
      == DatabaseDSN(host, user, before + " " + after, dbname)
  {
    JoinSixFields("host=" + host, "user=" + user, "password=" + before, after, "dbname=" + dbname, "sslmode=disable");
    Regroup("host=", host, " ", "user=", user, "password=", before, after, "dbname=", dbname, "sslmode=disable");
  }

  /** The six joined fields, regrouped as the DSN writes them. */
  lemma Regroup(h: string, host: string, sp: string, u: string, user: string, p: string, before: string, after: string,
                d: string, dbname: string, ssl: string)
    ensures (h + host) + sp + (u + user) + sp + (p + before) + sp + after + sp + (d + dbname) + sp + ssl
      == h + host + sp + u + user + sp + p + (before + sp + after) + sp + d + dbname + sp + ssl
  {
  }

  lemma JoinSixFields(a: string, b: string, c: string, d: string, e: string, f: string)
    ensures Strings.Join([a, b, c, d, e, f], ' ') == a + " " + b + " " + c + " " + d + " " + e + " " + f
  {
    JoinFields(b, c, d, e, f);
    assert [a, b, c, d, e, f][1..] == [b, c, d, e, f];
  }
}
