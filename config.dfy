/** Configuration from the environment. The process environment is a map
    from variable names to values; an absent variable is an absent key. */
module Config {

  type Env = map<string, string>

  datatype Config = Config(
    environment: string,
    port: string,
    databaseUrl: string,
    redisUrl: string,
    jwtSecret: string,
    logLevel: string)

  /** What os.Getenv reads: the variable's value, or "" when it is unset. */
  function Setting(env: Env, key: string): string {
    if key in env then env[key] else ""
  }

  /** getEnv: the variable's value when it is set and non-empty, the default
      otherwise (unset and empty are treated alike). */
  function GetEnv(env: Env, key: string, default: string): (value: string)
    ensures key in env && env[key] != "" ==> value == env[key]
    ensures key !in env || env[key] == "" ==> value == default
    ensures value == "" ==> default == ""
  {
    var v := Setting(env, key);
    if v != "" then v else default
  }

  /** Load: one variable per field, each with its own default, so no field
      is ever empty. */
  function Load(env: Env): (c: Config)
    ensures c.environment == GetEnv(env, "ENVIRONMENT", "development")
    ensures c.port == GetEnv(env, "PORT", "8080")
    ensures c.databaseUrl == GetEnv(env, "DATABASE_URL", "./microservice.db")
    ensures c.redisUrl == GetEnv(env, "REDIS_URL", "redis://localhost:6379")
    ensures c.jwtSecret == GetEnv(env, "JWT_SECRET", "my-secret-key")
    ensures c.logLevel == GetEnv(env, "LOG_LEVEL", "info")
    ensures c.environment != "" && c.port != "" && c.databaseUrl != ""
    ensures c.redisUrl != "" && c.jwtSecret != "" && c.logLevel != ""
  {
    Config(
      GetEnv(env, "ENVIRONMENT", "development"),
      GetEnv(env, "PORT", "8080"),
      GetEnv(env, "DATABASE_URL", "./microservice.db"),
      GetEnv(env, "REDIS_URL", "redis://localhost:6379"),
      GetEnv(env, "JWT_SECRET", "my-secret-key"),
      GetEnv(env, "LOG_LEVEL", "info"))
  }

  /** With nothing set, every field takes its default. */
  lemma LoadDefaults()
    ensures Load(map[]) == Config("development", "8080", "./microservice.db",
                                  "redis://localhost:6379", "my-secret-key", "info")
  {
  }

  /** Each field depends only on its own variable: two environments that
      agree on a variable give the same value for that field, whatever else
      they hold. */
  lemma LoadFieldsIndependent(e1: Env, e2: Env)
    ensures Setting(e1, "ENVIRONMENT") == Setting(e2, "ENVIRONMENT") ==> Load(e1).environment == Load(e2).environment
    ensures Setting(e1, "PORT") == Setting(e2, "PORT") ==> Load(e1).port == Load(e2).port
    ensures Setting(e1, "DATABASE_URL") == Setting(e2, "DATABASE_URL") ==> Load(e1).databaseUrl == Load(e2).databaseUrl
    ensures Setting(e1, "REDIS_URL") == Setting(e2, "REDIS_URL") ==> Load(e1).redisUrl == Load(e2).redisUrl
    ensures Setting(e1, "JWT_SECRET") == Setting(e2, "JWT_SECRET") ==> Load(e1).jwtSecret == Load(e2).jwtSecret
    ensures Setting(e1, "LOG_LEVEL") == Setting(e2, "LOG_LEVEL") ==> Load(e1).logLevel == Load(e2).logLevel
  {
  }

  /** A variable that is set and non-empty becomes its field's value. */
  lemma LoadReadsEnvironment(env: Env)
    ensures Setting(env, "ENVIRONMENT") != "" ==> Load(env).environment == env["ENVIRONMENT"]
    ensures Setting(env, "PORT") != "" ==> Load(env).port == env["PORT"]
    ensures Setting(env, "DATABASE_URL") != "" ==> Load(env).databaseUrl == env["DATABASE_URL"]
    ensures Setting(env, "REDIS_URL") != "" ==> Load(env).redisUrl == env["REDIS_URL"]
    ensures Setting(env, "JWT_SECRET") != "" ==> Load(env).jwtSecret == env["JWT_SECRET"]
    ensures Setting(env, "LOG_LEVEL") != "" ==> Load(env).logLevel == env["LOG_LEVEL"]
  {
  }
}
