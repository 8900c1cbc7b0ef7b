/**
 * Application configuration read from the process environment. The
 * environment is a map from variable name to value; a variable set to the
 * empty string counts as unset.
 */
module Config {
  import opened Wrappers

  type Env = map<string, string>

  datatype Config = Config(
    port: string,
    jwtSecret: string,
    awsRegion: string,
    awsAccessKeyId: string,
    awsSecretAccessKey: string,
    usersTable: string,
    stocksTable: string,
    triggersTable: string,
    redisHost: string,
    redisPassword: string,
    twelveDataApiKey: string,
    snsTopicName: string)

  /** The error `validate` reports, naming the variable it found empty. */
  datatype ConfigError = MissingVariable(name: string)

  /** The four variables without which the server refuses to start. */
  const RequiredKeys: set<string> :=
    {"JWT_SECRET", "AWS_ACCESS_KEY_ID", "AWS_SECRET_ACCESS_KEY", "TWELVEDATA_API_KEY"}

  /** The value of `key`, or `default` when the variable is unset or empty. */
  function GetEnvOrDefault(env: Env, key: string, default: string): (v: string)
    ensures key in env && env[key] != "" ==> v == env[key]
    ensures key !in env || env[key] == "" ==> v == default
    ensures v == "" ==> default == ""
  {
    if key in env && env[key] != "" then env[key] else default
  }

  /** The configuration record built before validation, one variable per field. */
  function FromEnv(env: Env): (c: Config)
    ensures c.port != "" && c.awsRegion != "" && c.usersTable != "" && c.stocksTable != ""
    ensures c.triggersTable != "" && c.redisHost != "" && c.snsTopicName != ""
    ensures c.jwtSecret == "" <==> "JWT_SECRET" !in env || env["JWT_SECRET"] == ""
    ensures c.twelveDataApiKey == "" <==> "TWELVEDATA_API_KEY" !in env || env["TWELVEDATA_API_KEY"] == ""
  {
    Config(
      port := GetEnvOrDefault(env, "PORT", "8080"),
      jwtSecret := GetEnvOrDefault(env, "JWT_SECRET", ""),
      awsRegion := GetEnvOrDefault(env, "AWS_REGION", "ap-south-1"),
      awsAccessKeyId := GetEnvOrDefault(env, "AWS_ACCESS_KEY_ID", ""),
      awsSecretAccessKey := GetEnvOrDefault(env, "AWS_SECRET_ACCESS_KEY", ""),
      usersTable := GetEnvOrDefault(env, "USERS_TABLE", "Users"),
      stocksTable := GetEnvOrDefault(env, "STOCKS_TABLE", "Stocks"),
      triggersTable := GetEnvOrDefault(env, "TRIGGERS_TABLE", "Triggers"),
      redisHost := GetEnvOrDefault(env, "REDIS_HOST", "localhost:6379"),
      redisPassword := GetEnvOrDefault(env, "REDIS_PASSWORD", ""),
      twelveDataApiKey := GetEnvOrDefault(env, "TWELVEDATA_API_KEY", ""),
      snsTopicName := GetEnvOrDefault(env, "SNS_TOPIC_NAME", "stock-market-alerts"))
  }

  /** The required variables paired with the values the record holds for them. */
  function RequiredVariables(c: Config): seq<(string, string)>
  {
    [ ("JWT_SECRET", c.jwtSecret),
      ("AWS_ACCESS_KEY_ID", c.awsAccessKeyId),
      ("AWS_SECRET_ACCESS_KEY", c.awsSecretAccessKey),
      ("TWELVEDATA_API_KEY", c.twelveDataApiKey) ]
  }

  /** Early-exit search for a variable whose value is empty. */
  function FirstUnset(vars: seq<(string, string)>): (missing: Option<string>)
    ensures missing.None? <==> forall i | 0 <= i < |vars| :: vars[i].1 != ""
    ensures missing.Some? ==> exists i | 0 <= i < |vars| :: vars[i] == (missing.value, "")
  {
    if vars == [] then None
    else if vars[0].1 == "" then Some(vars[0].0)
    else FirstUnset(vars[1..])
  }

  /**
   * Passes exactly when every required field is non-empty; a failure names
   * one of the empty ones. Which one is left open, as Go's map iteration
   * order leaves it open.
   */
  function Validate(c: Config): (r: Outcome<ConfigError>)
    ensures r.Pass? <==>
      c.jwtSecret != "" && c.awsAccessKeyId != "" && c.awsSecretAccessKey != "" && c.twelveDataApiKey != ""
    ensures r.Fail? ==>
      || (r.error.name == "JWT_SECRET" && c.jwtSecret == "")
      || (r.error.name == "AWS_ACCESS_KEY_ID" && c.awsAccessKeyId == "")
      || (r.error.name == "AWS_SECRET_ACCESS_KEY" && c.awsSecretAccessKey == "")
      || (r.error.name == "TWELVEDATA_API_KEY" && c.twelveDataApiKey == "")
  {
    var vars := RequiredVariables(c);
    match FirstUnset(vars)
    case None =>
      assert vars[0].1 != "" && vars[1].1 != "" && vars[2].1 != "" && vars[3].1 != "";
      Pass
    case Some(name) =>
      assert exists i | 0 <= i < |vars| :: vars[i] == (name, "");
      Fail(MissingVariable(name))
  }

  /**
   * Loading fails exactly when a required variable resolves to the empty
   * string, and then names such a variable; otherwise it yields the record
   * built from the environment.
   */
  function LoadConfig(env: Env): (r: Result<Config, ConfigError>)
    ensures r.Success? <==> forall k | k in RequiredKeys :: GetEnvOrDefault(env, k, "") != ""
    ensures r.Success? ==> r.value == FromEnv(env)
    ensures r.Failure? ==> r.error.name in RequiredKeys && GetEnvOrDefault(env, r.error.name, "") == ""
  {
    var c := FromEnv(env);
    match Validate(c)
    case Pass => Success(c)
    case Fail(e) => Failure(e)
  }

  /** On success every field is its variable's value, or the field's default when unset. */
  lemma LoadedFieldsFollowEnv(env: Env)
    requires LoadConfig(env).Success?
    ensures var c := LoadConfig(env).value;
      && c.port == GetEnvOrDefault(env, "PORT", "8080")
      && c.jwtSecret == env["JWT_SECRET"] != ""
      && c.awsRegion == GetEnvOrDefault(env, "AWS_REGION", "ap-south-1")
      && c.awsAccessKeyId == env["AWS_ACCESS_KEY_ID"] != ""
      && c.awsSecretAccessKey == env["AWS_SECRET_ACCESS_KEY"] != ""
      && c.usersTable == GetEnvOrDefault(env, "USERS_TABLE", "Users")
      && c.stocksTable == GetEnvOrDefault(env, "STOCKS_TABLE", "Stocks")
      && c.triggersTable == GetEnvOrDefault(env, "TRIGGERS_TABLE", "Triggers")
      && c.redisHost == GetEnvOrDefault(env, "REDIS_HOST", "localhost:6379")
      && c.redisPassword == GetEnvOrDefault(env, "REDIS_PASSWORD", "")
      && c.twelveDataApiKey == env["TWELVEDATA_API_KEY"] != ""
      && c.snsTopicName == GetEnvOrDefault(env, "SNS_TOPIC_NAME", "stock-market-alerts")
  {
    assert GetEnvOrDefault(env, "JWT_SECRET", "") != "";
    assert GetEnvOrDefault(env, "AWS_ACCESS_KEY_ID", "") != "";
    assert GetEnvOrDefault(env, "AWS_SECRET_ACCESS_KEY", "") != "";
    assert GetEnvOrDefault(env, "TWELVEDATA_API_KEY", "") != "";
  }

  /** Optional variables that are unset or empty take their literal defaults. */
  lemma DefaultsWhenUnset(env: Env)
    requires forall k | k in env :: env[k] == ""
    ensures var c := FromEnv(env);
      && c.port == "8080"
      && c.awsRegion == "ap-south-1"
      && c.usersTable == "Users" && c.stocksTable == "Stocks" && c.triggersTable == "Triggers"
      && c.redisHost == "localhost:6379"
      && c.snsTopicName == "stock-market-alerts"
      && c.redisPassword == ""
  {
  }

  /** With nothing set, loading fails: JWT_SECRET and the keys resolve to "". */
  lemma EmptyEnvironmentFails()
    ensures LoadConfig(map[]).Failure?
  {
    assert GetEnvOrDefault(map[], "JWT_SECRET", "") == "";
  }

  /** The Redis settings under the keys "host" and "password". */
  function GetRedisConfig(c: Config): (m: map<string, string>)
    ensures m.Keys == {"host", "password"}
    ensures m["host"] == c.redisHost && m["password"] == c.redisPassword
  {
    map["host" := c.redisHost, "password" := c.redisPassword]
  }

  /** The AWS settings under the keys "region", "accessKeyID" and "secretAccessKey". */
  function GetAWSConfig(c: Config): (m: map<string, string>)
    ensures m.Keys == {"region", "accessKeyID", "secretAccessKey"}
    ensures m["region"] == c.awsRegion
    ensures m["accessKeyID"] == c.awsAccessKeyId && m["secretAccessKey"] == c.awsSecretAccessKey
  {
    map["region" := c.awsRegion, "accessKeyID" := c.awsAccessKeyId, "secretAccessKey" := c.awsSecretAccessKey]
  }
}
