/** The database configuration decision of the application: which backend the
    process talks to, with which connection string or file path, and the one
    configuration error, all as pure functions of the environment and of
    whether the PostgreSQL driver could be imported.
 */
module Config {
  import opened Wrappers
  import opened PyStr

  /** The process environment: variable name to value. Values holding lone
      surrogate code points are outside this model. */
  type Env = map<string, string>

  const DatabaseUrl := "DATABASE_URL"
  const PostgresUrl := "POSTGRES_URL"
  const SqlitePathVar := "SQLITE_PATH"
  const Vercel := "VERCEL"

  /** The scheme some providers put in their connection strings, and the one
      the PostgreSQL driver prefers. */
  const ProviderScheme := "postgres://"
  const DriverScheme := "postgresql://"

  const ServerlessDbPath := "/tmp/database.db"
  const LocalDbPath := "database.db"

  /** `str()` of the `RuntimeError` raised when PostgreSQL is configured but
      its driver is not importable. */
  const DriverMissing := "psycopg2 not available but DATABASE_URL/POSTGRES_URL is set"

  datatype Backend = Postgres(dsn: string) | Sqlite(path: string)

  /** `os.getenv(name)` as read through Python's `or`: a missing variable and
      an empty one are both falsy, so both are `None` here. */
  function Getenv(env: Env, name: string): Option<string> {
    if IsSet(env, name) then Some(env[name]) else None
  }

  /** The variable is present with a non-empty value. */
  predicate IsSet(env: Env, name: string) {
    name in env && env[name] != ""
  }

  /** `is_postgres()`: PostgreSQL is selected iff either URL variable is set. */
  function IsPostgres(env: Env): (b: bool)
    ensures b <==> IsSet(env, DatabaseUrl) || IsSet(env, PostgresUrl)
  {
    Getenv(env, DatabaseUrl).Or(Getenv(env, PostgresUrl)).Some?
  }

  /** `os.getenv("DATABASE_URL") or os.getenv("POSTGRES_URL")`: the raw
      connection string, `DATABASE_URL` taking precedence. */
  function RawDsn(env: Env): (dsn: string)
    requires IsPostgres(env)
    ensures IsSet(env, DatabaseUrl) ==> dsn == env[DatabaseUrl]
    ensures !IsSet(env, DatabaseUrl) ==> dsn == env[PostgresUrl]
    ensures dsn != ""
  {
    Getenv(env, DatabaseUrl).Or(Getenv(env, PostgresUrl)).value
  }

  /** The scheme rewrite `dsn.replace("postgres://", "postgresql://", 1)`,
      applied only when `dsn` starts with `postgres://`: the prefix is
      replaced and the rest is kept; any other string is untouched; and the
      result never starts with `postgres://` again. */
  function NormalizeDsn(dsn: string): (r: string)
    ensures StartsWith(dsn, ProviderScheme) ==> r == DriverScheme + dsn[|ProviderScheme|..]
    ensures !StartsWith(dsn, ProviderScheme) ==> r == dsn
    ensures !StartsWith(r, ProviderScheme)
  {
    if StartsWith(dsn, ProviderScheme) then
      ReplaceFirstAtPrefix(dsn, ProviderScheme, DriverScheme);
      assert (DriverScheme + dsn[|ProviderScheme|..])[8] == 'q' != ProviderScheme[8];
      ReplaceFirst(dsn, ProviderScheme, DriverScheme)
    else
      dsn
  }

  /** Normalizing an already normalized connection string changes nothing. */
  lemma NormalizeDsnIdempotent(dsn: string)
    ensures NormalizeDsn(NormalizeDsn(dsn)) == NormalizeDsn(dsn)
  {
  }

  /** The SQLite file: `SQLITE_PATH` when set, else the writable temporary
      directory on Vercel, else a file in the working directory. */
  function SqlitePath(env: Env): (path: string)
    ensures IsSet(env, SqlitePathVar) ==> path == env[SqlitePathVar]
    ensures !IsSet(env, SqlitePathVar) && IsSet(env, Vercel) ==> path == ServerlessDbPath
    ensures !IsSet(env, SqlitePathVar) && !IsSet(env, Vercel) ==> path == LocalDbPath
    ensures path != ""
  {
    Getenv(env, SqlitePathVar).Or(Some(if Getenv(env, Vercel).Some? then ServerlessDbPath else LocalDbPath)).value
  }

  /** The decision `get_connection()` makes before it connects. */
  function Resolve(env: Env, driverAvailable: bool): (r: Result<Backend, string>)
    ensures r.Failure? <==> IsPostgres(env) && !driverAvailable
    ensures r.Failure? ==> r.error == DriverMissing
    ensures r.Success? ==> (r.value.Postgres? <==> IsPostgres(env))
    ensures r.Success? && r.value.Postgres? ==> r.value.dsn == NormalizeDsn(RawDsn(env))
    ensures r.Success? && r.value.Sqlite? ==> r.value.path == SqlitePath(env)
    ensures r.Success? ==> (r.value.Postgres? ==> r.value.dsn != "") && (r.value.Sqlite? ==> r.value.path != "")
  {
    if IsPostgres(env) then
      if !driverAvailable then Failure(DriverMissing)
      else Success(Postgres(NormalizeDsn(RawDsn(env))))
    else
      Success(Sqlite(SqlitePath(env)))
  }

  /** Only the four variables matter: two environments that agree on whether
      each is set, and on its value when it is, resolve identically. */
  lemma ResolveDependsOnlyOnFourVariables(e1: Env, e2: Env, driverAvailable: bool)
    requires forall name :: name in {DatabaseUrl, PostgresUrl, SqlitePathVar, Vercel} ==> Getenv(e1, name) == Getenv(e2, name)
    ensures Resolve(e1, driverAvailable) == Resolve(e2, driverAvailable)
  {
    assert Getenv(e1, DatabaseUrl) == Getenv(e2, DatabaseUrl);
    assert Getenv(e1, PostgresUrl) == Getenv(e2, PostgresUrl);
    assert Getenv(e1, SqlitePathVar) == Getenv(e2, SqlitePathVar);
    assert Getenv(e1, Vercel) == Getenv(e2, Vercel);
  }
}
