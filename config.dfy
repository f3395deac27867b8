/**
 * internal/config/config.go: the service configuration and its validation.
 * Reading the environment and the .env file is left to the caller: `Load`
 * receives the values as read, with a missing string as "" and a missing
 * number as 0, as the reader returns them.
 */
module Config {
  import opened Wrappers
  import opened Errors

  datatype DatabaseVar = DatabaseVar(
    name: string,
    host: string,
    user: string,
    password: string,
    port: int,
    maxOpenConns: int,
    maxIdleConns: int,
    connMaxLifetime: int) // a time.Duration, in nanoseconds

  datatype Config = Config(serviceName: string, env: string, servicePort: int, databaseVar: DatabaseVar)

  /** The checked variables, in the order they are checked. */
  const FieldNames: seq<string> := ["SERVICE_NAME", "SERVICE_PORT", "DB_NAME", "DB_HOST", "DB_USER", "DB_PASSWORD", "DB_PORT"]

  /** Whether the k-th checked variable is set: a name is non-empty, a port positive. */
  predicate FieldOk(c: Config, k: int)
    requires 0 <= k < |FieldNames|
  {
    match k
    case 0 => c.serviceName != ""
    case 1 => c.servicePort > 0
    case 2 => c.databaseVar.name != ""
    case 3 => c.databaseVar.host != ""
    case 4 => c.databaseVar.user != ""
    case 5 => c.databaseVar.password != ""
    case _ => c.databaseVar.port > 0
  }

  /** The first unset variable at position `from` or later, or `|FieldNames|` when there is none. */
  function FirstUnsetFrom(c: Config, from: nat): (k: nat)
    requires from <= |FieldNames|
    decreases |FieldNames| - from
  {
    if from == |FieldNames| then from
    else if !FieldOk(c, from) then from
    else FirstUnsetFrom(c, from + 1)
  }

  /** The first unset variable, scanning all of them in order. */
  function FirstUnset(c: Config): nat {
    FirstUnsetFrom(c, 0)
  }

  /** `FirstUnsetFrom` is what it says: every variable before it is set, and it is unset unless it is the end. */
  lemma {:induction false} FirstUnsetFromIsFirst(c: Config, from: nat)
    requires from <= |FieldNames|
    requires forall j :: 0 <= j < from ==> FieldOk(c, j)
    ensures var k := FirstUnsetFrom(c, from);
      && from <= k <= |FieldNames|
      && (forall j :: 0 <= j < k ==> FieldOk(c, j))
      && (k < |FieldNames| ==> !FieldOk(c, k))
    decreases |FieldNames| - from
  {
    if from < |FieldNames| && FieldOk(c, from) {
      FirstUnsetFromIsFirst(c, from + 1);
    }
  }

  /**
   * `Config.validate`: the first of SERVICE_NAME, SERVICE_PORT, DB_NAME,
   * DB_HOST, DB_USER, DB_PASSWORD, DB_PORT that is not set, reported as
   * "<NAME>: env vars not set" wrapping the sentinel; nothing when all are set.
   */
  function Validate(c: Config): (r: Option<Error>)
    ensures r.None? <==> forall k :: 0 <= k < |FieldNames| ==> FieldOk(c, k)
    ensures r.Some? ==>
      var k := FirstUnset(c);
      && k < |FieldNames|
      && !FieldOk(c, k)
      && (forall j :: 0 <= j < k ==> FieldOk(c, j))
      && r.value == Wrapf(FieldNames[k], Sentinel(EnvVarsNotSet))
  {
    FirstUnsetFromIsFirst(c, 0);
    if c.serviceName == "" then Some(Wrapf("SERVICE_NAME", Sentinel(EnvVarsNotSet)))
    else if c.servicePort <= 0 then Some(Wrapf("SERVICE_PORT", Sentinel(EnvVarsNotSet)))
    else if c.databaseVar.name == "" then Some(Wrapf("DB_NAME", Sentinel(EnvVarsNotSet)))
    else if c.databaseVar.host == "" then Some(Wrapf("DB_HOST", Sentinel(EnvVarsNotSet)))
    else if c.databaseVar.user == "" then Some(Wrapf("DB_USER", Sentinel(EnvVarsNotSet)))
    else if c.databaseVar.password == "" then Some(Wrapf("DB_PASSWORD", Sentinel(EnvVarsNotSet)))
    else if c.databaseVar.port <= 0 then Some(Wrapf("DB_PORT", Sentinel(EnvVarsNotSet)))
    else None
  }

  /** Every validation error is recognisable as the env-vars-not-set sentinel. */
  lemma ValidateErrorIsEnvVarsNotSet(c: Config)
    ensures Validate(c).Some? ==> Is(Validate(c).value, EnvVarsNotSet)
  {
  }

  /** Env, the pool sizes and the connection lifetime take no part in validation. */
  lemma ValidateIgnoresUncheckedFields(c: Config, env: string, maxOpenConns: int, maxIdleConns: int, connMaxLifetime: int)
    ensures Validate(c.(env := env, databaseVar := c.databaseVar.(maxOpenConns := maxOpenConns,
      maxIdleConns := maxIdleConns, connMaxLifetime := connMaxLifetime))) == Validate(c)
  {
  }

  /** `Load`: the configuration as read comes back whether or not it is valid, with the validation error beside it. */
  function Load(read: Config): (r: (Config, Option<Error>))
    ensures r.0 == read
    ensures r.1 == Validate(read)
    ensures r.1.None? <==> forall k :: 0 <= k < |FieldNames| ==> FieldOk(read, k)
    ensures r.1.Some? ==> r.1.value == Wrapf(FieldNames[FirstUnset(read)], Sentinel(EnvVarsNotSet))
  {
    (read, Validate(read))
  }

  /** The values of the loading test: every variable set. */
  const TestConfig := Config("test-service", "test", 8080,
    DatabaseVar("testdb", "localhost", "testuser", "testpass", 3306, 10, 5, 30 * 60 * 1_000_000_000))

  /** The loading test and the seven missing-variable cases, each variable left unset in turn. */
  lemma LoadTable()
    ensures Load(TestConfig) == (TestConfig, None)
    ensures Load(TestConfig.(serviceName := "")).1 == Some(Wrapf("SERVICE_NAME", Sentinel(EnvVarsNotSet)))
    ensures Load(TestConfig.(servicePort := 0)).1 == Some(Wrapf("SERVICE_PORT", Sentinel(EnvVarsNotSet)))
    ensures Load(TestConfig.(databaseVar := TestConfig.databaseVar.(name := ""))).1 == Some(Wrapf("DB_NAME", Sentinel(EnvVarsNotSet)))
    ensures Load(TestConfig.(databaseVar := TestConfig.databaseVar.(host := ""))).1 == Some(Wrapf("DB_HOST", Sentinel(EnvVarsNotSet)))
    ensures Load(TestConfig.(databaseVar := TestConfig.databaseVar.(user := ""))).1 == Some(Wrapf("DB_USER", Sentinel(EnvVarsNotSet)))
    ensures Load(TestConfig.(databaseVar := TestConfig.databaseVar.(password := ""))).1 == Some(Wrapf("DB_PASSWORD", Sentinel(EnvVarsNotSet)))
    ensures Load(TestConfig.(databaseVar := TestConfig.databaseVar.(port := 0))).1 == Some(Wrapf("DB_PORT", Sentinel(EnvVarsNotSet)))
  {
  }
}
