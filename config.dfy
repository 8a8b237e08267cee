/** The configuration of the personal data server (packages/pds/src/config.ts):
    `ServerConfig.readEnv` resolves every setting from caller overrides, the
    process environment and literal defaults, and the resulting immutable
    `ServerConfig` answers its getters from the stored record. */
module Config {
  import opened Wrappers
  import opened Js
  import Url

  /** The one error `readEnv` throws: 'No value provided for
      process.env.RECOVERY_KEY'. */
  datatype Error = MissingRecoveryKey

  /** The stored `ServerConfigValues` record that a `ServerConfig` wraps and
      never changes. Fields marked optional in the record are `Option`s.
      Each plain getter of `ServerConfig` returns its stored field
      unchanged, so here the getters are the field names themselves; the
      four computed getters are the member functions. */
  datatype ServerConfig = ServerConfig(
    debugMode: Option<bool>,
    publicUrl: Option<string>,
    scheme: string,
    port: int,
    hostname: string,
    dbPostgresUrl: Option<string>,
    dbPostgresSchema: Option<string>,
    jwtSecret: string,
    didPlcUrl: string,
    recoveryKey: string,
    adminPassword: string,
    inviteRequired: bool,
    blockstoreLocation: Option<string>,
    databaseLocation: Option<string>,
    testNameRegistry: Option<map<string, string>>,
    appUrlPasswordReset: string,
    emailSmtpUrl: Option<string>,
    emailNoReplyAddress: string)
  {
    /** `origin`: the origin of `scheme://hostname:port`; `None` where the
        URL constructor throws. */
    function Origin(): (r: Option<string>)
      ensures r.None? <==> port < 0 || port > Url.MaxPort || hostname == ""
      ensures r.Some? ==> |Url.AsciiLower(scheme)| + 3 <= |r.value|
                          && r.value[..|scheme| + 3] == Url.AsciiLower(scheme) + "://"
    {
      Url.Origin(scheme, hostname, port)
    }

    /** `publicUrl`: the stored public URL unless it is undefined or empty,
        else the origin. */
    function PublicUrl(): (r: Option<string>)
      ensures publicUrl.Some? && publicUrl.value != "" ==> r == publicUrl
      ensures publicUrl == None || publicUrl == Some("") ==> r == Origin()
      ensures r.None? <==> !Truthy(publicUrl) && (port < 0 || port > Url.MaxPort || hostname == "")
    {
      if Truthy(publicUrl) then publicUrl else Origin()
    }

    /** `useMemoryBlockstore`: `!blockstoreLocation`. */
    predicate UseMemoryBlockstore()
      ensures UseMemoryBlockstore() <==> blockstoreLocation == None || blockstoreLocation == Some("")
    {
      !Truthy(blockstoreLocation)
    }

    /** `useMemoryDatabase`: `!databaseLocation`. */
    predicate UseMemoryDatabase()
      ensures UseMemoryDatabase() <==> databaseLocation == None || databaseLocation == Some("")
    {
      !Truthy(databaseLocation)
    }
  }

  /** The optional `overrides` argument of `readEnv`, one entry per stored
      field: `None` when the key is absent. For a field the record marks
      optional the entry is itself optional, because a key present with the
      value `undefined` is copied by the spread like any other. */
  datatype Overrides = Overrides(
    debugMode: Option<Option<bool>>,
    publicUrl: Option<Option<string>>,
    scheme: Option<string>,
    port: Option<int>,
    hostname: Option<string>,
    dbPostgresUrl: Option<Option<string>>,
    dbPostgresSchema: Option<Option<string>>,
    jwtSecret: Option<string>,
    didPlcUrl: Option<string>,
    recoveryKey: Option<string>,
    adminPassword: Option<string>,
    inviteRequired: Option<bool>,
    blockstoreLocation: Option<Option<string>>,
    databaseLocation: Option<Option<string>>,
    testNameRegistry: Option<Option<map<string, string>>>,
    appUrlPasswordReset: Option<string>,
    emailSmtpUrl: Option<Option<string>>,
    emailNoReplyAddress: Option<string>)

  /** `readEnv()` called without overrides. */
  const NoOverrides: Overrides := Overrides(
    None, None, None, None, None, None, None, None, None,
    None, None, None, None, None, None, None, None, None)

  /** The port `readEnv` falls back to. */
  const FallbackPort: int := 2583

  /** The scheme: from the `TLS` variable when that key is present at all,
      else from the hostname the environment gives. */
  function Scheme(env: map<string, string>, hostname: string): (r: string)
    ensures r == "http" || r == "https"
    ensures "TLS" in env ==> (r == "https" <==> env["TLS"] == "1")
    ensures "TLS" !in env ==> (r == "http" <==> hostname == "localhost")
  {
    if "TLS" in env then (if env["TLS"] == "1" then "https" else "http")
    else if hostname == "localhost" then "http" else "https"
  }

  /** The port: `parseInt(PORT || '')`, or 2583 when that is NaN. */
  function EnvPort(env: map<string, string>): (r: int)
    ensures "PORT" !in env || ParseInt(env["PORT"]).None? ==> r == FallbackPort
    ensures "PORT" in env && ParseInt(env["PORT"]).Some? ==> r == ParseInt(env["PORT"]).value
  {
    match ParseInt(Or(Lookup(env, "PORT"), ""))
    case None => FallbackPort
    case Some(p) => p
  }

  /** The record `readEnv` builds from the environment before it spreads the
      overrides over it, given the recovery key it has already checked. */
  function EnvValues(env: map<string, string>, recoveryKey: string): (r: ServerConfig)
    ensures r.recoveryKey == recoveryKey
    ensures r.hostname != "" && (r.scheme == "http" || r.scheme == "https")
    ensures r.debugMode.Some? && (r.testNameRegistry.Some? <==> r.debugMode.value)
    ensures r.publicUrl != Some("") && r.emailSmtpUrl != Some("")
  {
    var debugMode := Lookup(env, "DEBUG_MODE") == Some("1");
    var hostname := Or(Lookup(env, "HOSTNAME"), "localhost");
    ServerConfig(
      debugMode := Some(debugMode),
      publicUrl := OrUndefined(Lookup(env, "PUBLIC_URL")),
      scheme := Scheme(env, hostname),
      port := EnvPort(env),
      hostname := hostname,
      dbPostgresUrl := Lookup(env, "DB_POSTGRES_URL"),
      dbPostgresSchema := Lookup(env, "DB_POSTGRES_SCHEMA"),
      jwtSecret := Or(Lookup(env, "JWT_SECRET"), "jwt_secret"),
      didPlcUrl := Or(Lookup(env, "DID_PLC_URL"), "http://localhost:2582"),
      recoveryKey := recoveryKey,
      adminPassword := Or(Lookup(env, "ADMIN_PASSWORD"), "admin"),
      inviteRequired := Lookup(env, "INVITE_REQUIRED") == Some("true"),
      blockstoreLocation := Lookup(env, "BLOCKSTORE_LOC"),
      databaseLocation := Lookup(env, "DATABASE_LOC"),
      testNameRegistry := if debugMode then Some(map[]) else None,
      appUrlPasswordReset := Or(Lookup(env, "APP_URL_PASSWORD_RESET"), "app://password-reset"),
      emailSmtpUrl := OrUndefined(Lookup(env, "EMAIL_SMTP_URL")),
      emailNoReplyAddress := Or(Lookup(env, "EMAIL_NO_REPLY_ADDRESS"), "noreply@blueskyweb.xyz"))
  }

  /** `{ ...c, ...o }`: each field is the override's when its key is
      present. */
  function ApplyOverrides(c: ServerConfig, o: Overrides): (r: ServerConfig)
    ensures o == NoOverrides ==> r == c
  {
    ServerConfig(
      debugMode := if o.debugMode.Some? then o.debugMode.value else c.debugMode,
      publicUrl := if o.publicUrl.Some? then o.publicUrl.value else c.publicUrl,
      scheme := if o.scheme.Some? then o.scheme.value else c.scheme,
      port := if o.port.Some? then o.port.value else c.port,
      hostname := if o.hostname.Some? then o.hostname.value else c.hostname,
      dbPostgresUrl := if o.dbPostgresUrl.Some? then o.dbPostgresUrl.value else c.dbPostgresUrl,
      dbPostgresSchema := if o.dbPostgresSchema.Some? then o.dbPostgresSchema.value else c.dbPostgresSchema,
      jwtSecret := if o.jwtSecret.Some? then o.jwtSecret.value else c.jwtSecret,
      didPlcUrl := if o.didPlcUrl.Some? then o.didPlcUrl.value else c.didPlcUrl,
      recoveryKey := if o.recoveryKey.Some? then o.recoveryKey.value else c.recoveryKey,
      adminPassword := if o.adminPassword.Some? then o.adminPassword.value else c.adminPassword,
      inviteRequired := if o.inviteRequired.Some? then o.inviteRequired.value else c.inviteRequired,
      blockstoreLocation := if o.blockstoreLocation.Some? then o.blockstoreLocation.value else c.blockstoreLocation,
      databaseLocation := if o.databaseLocation.Some? then o.databaseLocation.value else c.databaseLocation,
      testNameRegistry := if o.testNameRegistry.Some? then o.testNameRegistry.value else c.testNameRegistry,
      appUrlPasswordReset := if o.appUrlPasswordReset.Some? then o.appUrlPasswordReset.value else c.appUrlPasswordReset,
      emailSmtpUrl := if o.emailSmtpUrl.Some? then o.emailSmtpUrl.value else c.emailSmtpUrl,
      emailNoReplyAddress := if o.emailNoReplyAddress.Some? then o.emailNoReplyAddress.value else c.emailNoReplyAddress)
  }

  /** The check of `readEnv`: `overrides.recoveryKey || RECOVERY_KEY` is a
      string exactly when the override's key is truthy or the `RECOVERY_KEY`
      key is in the environment, whatever its value. */
  predicate Resolvable(env: map<string, string>, o: Overrides)
    ensures Resolvable(env, o) <==> (o.recoveryKey.Some? && o.recoveryKey.value != "") || "RECOVERY_KEY" in env
  {
    Truthy(o.recoveryKey) || Lookup(env, "RECOVERY_KEY").Some?
  }

  /** The recovery key the check accepts, `overrides.recoveryKey ||
      RECOVERY_KEY`: the override's when it is truthy, else `RECOVERY_KEY`,
      which may be empty. */
  function AcceptedKey(env: map<string, string>, o: Overrides): (k: string)
    requires Resolvable(env, o)
    ensures o.recoveryKey.Some? && o.recoveryKey.value != "" ==> k == o.recoveryKey.value
    ensures o.recoveryKey == None || o.recoveryKey == Some("") ==> k == env["RECOVERY_KEY"]
    ensures k == "" ==> "RECOVERY_KEY" in env && env["RECOVERY_KEY"] == ""
  {
    if Truthy(o.recoveryKey) then o.recoveryKey.value else env["RECOVERY_KEY"]
  }

  /** `ServerConfig.readEnv(overrides)`, with `process.env` passed as `env`.
      It throws exactly when the check fails, so an empty `RECOVERY_KEY` is
      accepted. The recovery key finally stored is the override's whenever
      the override has the key, even an empty one the check passed over. */
  function ReadEnv(env: map<string, string>, o: Overrides): (r: Result<ServerConfig, Error>)
    ensures r.Failure? <==> (o.recoveryKey == None || o.recoveryKey == Some("")) && "RECOVERY_KEY" !in env
    ensures r.Failure? ==> r.error == MissingRecoveryKey
    ensures r.Success? ==>
              r.value.recoveryKey == (if o.recoveryKey.Some? then o.recoveryKey.value else env["RECOVERY_KEY"])
  {
    if !Resolvable(env, o) then Failure(MissingRecoveryKey)
    else Success(ApplyOverrides(EnvValues(env, AcceptedKey(env, o)), o))
  }

  // -----------------------------------------------------------------------
  // Properties of readEnv
  // -----------------------------------------------------------------------

  /** The hostname is `HOSTNAME` unless that is absent or empty, else
      `localhost`. */
  lemma Hostname(env: map<string, string>, o: Overrides)
    requires Resolvable(env, o) && o.hostname.None?
    ensures ReadEnv(env, o).value.hostname ==
              (if "HOSTNAME" in env && env["HOSTNAME"] != "" then env["HOSTNAME"] else "localhost")
  {
    ReadEnvUnfolds(env, o);
  }

  /** The scheme follows `TLS` whenever that key is present, whatever its
      value and whatever the hostname (`https` exactly for `"1"`); otherwise
      it is `http` exactly for the hostname `localhost`. It looks at the
      hostname the environment gives, even when the hostname itself is
      overridden. */
  lemma SchemeFromEnv(env: map<string, string>, o: Overrides)
    requires Resolvable(env, o) && o.scheme.None?
    ensures var c := ReadEnv(env, o).value;
      var host := if "HOSTNAME" in env && env["HOSTNAME"] != "" then env["HOSTNAME"] else "localhost";
      && ("TLS" in env ==> c.scheme == if env["TLS"] == "1" then "https" else "http")
      && ("TLS" !in env ==> c.scheme == if host == "localhost" then "http" else "https")
  {
    ReadEnvUnfolds(env, o);
  }

  /** The port is what `parseInt` reads from `PORT`, and 2583 when `PORT` is
      absent, empty or not numeric; a malformed port is never an error. */
  lemma PortFromEnv(env: map<string, string>, o: Overrides)
    requires Resolvable(env, o) && o.port.None?
    ensures var c := ReadEnv(env, o).value;
      && ("PORT" !in env || ParseInt(env["PORT"]).None? ==> c.port == 2583)
      && ("PORT" in env && ParseInt(env["PORT"]).Some? ==> c.port == ParseInt(env["PORT"]).value)
  {
    ReadEnvUnfolds(env, o);
  }

  /** Writing a port `p` into `PORT` as a decimal numeral makes `readEnv`
      resolve exactly `p`. */
  lemma PortReadBack(env: map<string, string>, o: Overrides, p: nat)
    requires Resolvable(env, o) && o.port.None?
    ensures ReadEnv(env["PORT" := Decimal(p)], o).Success?
    ensures ReadEnv(env["PORT" := Decimal(p)], o).value.port == p
  {
    var env' := env["PORT" := Decimal(p)];
    ParseIntOfDecimal(p);
    assert env'["PORT"] == Decimal(p);
    assert Resolvable(env', o);
    PortFromEnv(env', o);
  }

  /** The variable `key` when it is present and not empty, else `d`. */
  function EnvOr(env: map<string, string>, key: string, d: string): string
  {
    if key in env && env[key] != "" then env[key] else d
  }

  /** Every `||`-defaulted string takes its environment value when that is
      present and not empty, else its literal default. */
  lemma LiteralDefaults(env: map<string, string>, o: Overrides)
    requires Resolvable(env, o)
    ensures var c := ReadEnv(env, o).value;
      && (o.jwtSecret.None? ==>
            c.jwtSecret == EnvOr(env, "JWT_SECRET", "jwt_secret"))
      && (o.didPlcUrl.None? ==>
            c.didPlcUrl == EnvOr(env, "DID_PLC_URL", "http://localhost:2582"))
      && (o.adminPassword.None? ==>
            c.adminPassword == EnvOr(env, "ADMIN_PASSWORD", "admin"))
      && (o.appUrlPasswordReset.None? ==>
            c.appUrlPasswordReset == EnvOr(env, "APP_URL_PASSWORD_RESET", "app://password-reset"))
      && (o.emailNoReplyAddress.None? ==>
            c.emailNoReplyAddress == EnvOr(env, "EMAIL_NO_REPLY_ADDRESS", "noreply@blueskyweb.xyz"))
  {
    ReadEnvUnfolds(env, o);
  }

  /** `publicUrl` and `emailSmtpUrl` are undefined rather than empty; the
      Postgres settings are the raw environment values, an empty one
      included. */
  lemma OptionalSettings(env: map<string, string>, o: Overrides)
    requires Resolvable(env, o)
    ensures var c := ReadEnv(env, o).value;
      && (o.publicUrl.None? ==>
            c.publicUrl == (if "PUBLIC_URL" in env && env["PUBLIC_URL"] != "" then Some(env["PUBLIC_URL"]) else None))
      && (o.emailSmtpUrl.None? ==>
            c.emailSmtpUrl == (if "EMAIL_SMTP_URL" in env && env["EMAIL_SMTP_URL"] != "" then Some(env["EMAIL_SMTP_URL"]) else None))
      && (o.dbPostgresUrl.None? ==>
            c.dbPostgresUrl == (if "DB_POSTGRES_URL" in env then Some(env["DB_POSTGRES_URL"]) else None))
      && (o.dbPostgresSchema.None? ==>
            c.dbPostgresSchema == (if "DB_POSTGRES_SCHEMA" in env then Some(env["DB_POSTGRES_SCHEMA"]) else None))
  {
    ReadEnvUnfolds(env, o);
  }

  /** `debugMode` holds exactly for `DEBUG_MODE` equal to `"1"` and
      `inviteRequired` exactly for `INVITE_REQUIRED` equal to `"true"`. */
  lemma Flags(env: map<string, string>, o: Overrides)
    requires Resolvable(env, o)
    ensures var c := ReadEnv(env, o).value;
      && (o.debugMode.None? ==> c.debugMode == Some("DEBUG_MODE" in env && env["DEBUG_MODE"] == "1"))
      && (o.inviteRequired.None? ==> (c.inviteRequired <==> "INVITE_REQUIRED" in env && env["INVITE_REQUIRED"] == "true"))
  {
    ReadEnvUnfolds(env, o);
  }

  /** The test name registry is the empty map exactly in debug mode and
      undefined otherwise, following the environment even when `debugMode`
      itself is overridden. */
  lemma TestNameRegistry(env: map<string, string>, o: Overrides)
    requires Resolvable(env, o) && o.testNameRegistry.None?
    ensures var c := ReadEnv(env, o).value;
      var debug := "DEBUG_MODE" in env && env["DEBUG_MODE"] == "1";
      && (debug ==> c.testNameRegistry == Some(map[]))
      && (!debug ==> c.testNameRegistry == None)
  {
    ReadEnvUnfolds(env, o);
  }

  /** Each location is the raw environment value, and the matching store
      runs in memory exactly when that variable is absent or empty. */
  lemma StorageMode(env: map<string, string>, o: Overrides)
    requires Resolvable(env, o)
    ensures var c := ReadEnv(env, o).value;
      && (o.blockstoreLocation.None? ==>
            && c.blockstoreLocation == (if "BLOCKSTORE_LOC" in env then Some(env["BLOCKSTORE_LOC"]) else None)
            && (c.UseMemoryBlockstore() <==> "BLOCKSTORE_LOC" !in env || env["BLOCKSTORE_LOC"] == ""))
      && (o.databaseLocation.None? ==>
            && c.databaseLocation == (if "DATABASE_LOC" in env then Some(env["DATABASE_LOC"]) else None)
            && (c.UseMemoryDatabase() <==> "DATABASE_LOC" !in env || env["DATABASE_LOC"] == ""))
  {
    ReadEnvUnfolds(env, o);
  }

  /** The value of one field after the spread: the override's when the key
      is present, else the value it had without it. */
  predicate Picks<T(==)>(entry: Option<T>, got: T, without: T)
  {
    if entry.Some? then got == entry.value else got == without
  }

  /** A successful `readEnv` is the spread of the overrides over the
      environment's record, built with the accepted key. */
  lemma ReadEnvUnfolds(env: map<string, string>, o: Overrides)
    requires Resolvable(env, o)
    ensures ReadEnv(env, o) == Success(ApplyOverrides(EnvValues(env, AcceptedKey(env, o)), o))
  {
  }

  /** Override precedence: whenever `readEnv` succeeds, every field whose
      key is present in the overrides takes the override's value, whatever
      the environment says, and every other field keeps the value the
      environment and the literal defaults give it. */
  lemma OverridePrecedence(env: map<string, string>, o: Overrides)
    requires Resolvable(env, o)
    ensures ReadEnv(env, o).Success?
    ensures var c := ReadEnv(env, o).value;
      var b := EnvValues(env, AcceptedKey(env, o));
      && Picks(o.debugMode, c.debugMode, b.debugMode)
      && Picks(o.publicUrl, c.publicUrl, b.publicUrl)
      && Picks(o.scheme, c.scheme, b.scheme)
      && Picks(o.port, c.port, b.port)
      && Picks(o.hostname, c.hostname, b.hostname)
      && Picks(o.dbPostgresUrl, c.dbPostgresUrl, b.dbPostgresUrl)
      && Picks(o.dbPostgresSchema, c.dbPostgresSchema, b.dbPostgresSchema)
      && Picks(o.jwtSecret, c.jwtSecret, b.jwtSecret)
      && Picks(o.didPlcUrl, c.didPlcUrl, b.didPlcUrl)
      && Picks(o.recoveryKey, c.recoveryKey, b.recoveryKey)
      && Picks(o.adminPassword, c.adminPassword, b.adminPassword)
      && Picks(o.inviteRequired, c.inviteRequired, b.inviteRequired)
      && Picks(o.blockstoreLocation, c.blockstoreLocation, b.blockstoreLocation)
      && Picks(o.databaseLocation, c.databaseLocation, b.databaseLocation)
      && Picks(o.testNameRegistry, c.testNameRegistry, b.testNameRegistry)
      && Picks(o.appUrlPasswordReset, c.appUrlPasswordReset, b.appUrlPasswordReset)
      && Picks(o.emailSmtpUrl, c.emailSmtpUrl, b.emailSmtpUrl)
      && Picks(o.emailNoReplyAddress, c.emailNoReplyAddress, b.emailNoReplyAddress)
  {
    ReadEnvUnfolds(env, o);
    SpreadPicks(EnvValues(env, AcceptedKey(env, o)), o);
  }

  /** `{ ...b, ...o }` takes each field from `o` when its key is present and
      from `b` otherwise. */
  lemma SpreadPicks(b: ServerConfig, o: Overrides)
    ensures var c := ApplyOverrides(b, o);
      && Picks(o.debugMode, c.debugMode, b.debugMode)
      && Picks(o.publicUrl, c.publicUrl, b.publicUrl)
      && Picks(o.scheme, c.scheme, b.scheme)
      && Picks(o.port, c.port, b.port)
      && Picks(o.hostname, c.hostname, b.hostname)
      && Picks(o.dbPostgresUrl, c.dbPostgresUrl, b.dbPostgresUrl)
      && Picks(o.dbPostgresSchema, c.dbPostgresSchema, b.dbPostgresSchema)
      && Picks(o.jwtSecret, c.jwtSecret, b.jwtSecret)
      && Picks(o.didPlcUrl, c.didPlcUrl, b.didPlcUrl)
      && Picks(o.recoveryKey, c.recoveryKey, b.recoveryKey)
      && Picks(o.adminPassword, c.adminPassword, b.adminPassword)
      && Picks(o.inviteRequired, c.inviteRequired, b.inviteRequired)
      && Picks(o.blockstoreLocation, c.blockstoreLocation, b.blockstoreLocation)
      && Picks(o.databaseLocation, c.databaseLocation, b.databaseLocation)
      && Picks(o.testNameRegistry, c.testNameRegistry, b.testNameRegistry)
      && Picks(o.appUrlPasswordReset, c.appUrlPasswordReset, b.appUrlPasswordReset)
      && Picks(o.emailSmtpUrl, c.emailSmtpUrl, b.emailSmtpUrl)
      && Picks(o.emailNoReplyAddress, c.emailNoReplyAddress, b.emailNoReplyAddress)
  {
  }

  /** With `RECOVERY_KEY` present, the baseline is `readEnv` without
      overrides: each field is the override's when its key is present, and
      what `readEnv()` gives otherwise. */
  lemma OverridePrecedenceOverEnv(env: map<string, string>, o: Overrides)
    requires "RECOVERY_KEY" in env
    ensures ReadEnv(env, o).Success? && ReadEnv(env, NoOverrides).Success?
    ensures var c := ReadEnv(env, o).value;
      var b := ReadEnv(env, NoOverrides).value;
      && Picks(o.debugMode, c.debugMode, b.debugMode)
      && Picks(o.publicUrl, c.publicUrl, b.publicUrl)
      && Picks(o.scheme, c.scheme, b.scheme)
      && Picks(o.port, c.port, b.port)
      && Picks(o.hostname, c.hostname, b.hostname)
      && Picks(o.dbPostgresUrl, c.dbPostgresUrl, b.dbPostgresUrl)
      && Picks(o.dbPostgresSchema, c.dbPostgresSchema, b.dbPostgresSchema)
      && Picks(o.jwtSecret, c.jwtSecret, b.jwtSecret)
      && Picks(o.didPlcUrl, c.didPlcUrl, b.didPlcUrl)
      && Picks(o.recoveryKey, c.recoveryKey, b.recoveryKey)
      && Picks(o.adminPassword, c.adminPassword, b.adminPassword)
      && Picks(o.inviteRequired, c.inviteRequired, b.inviteRequired)
      && Picks(o.blockstoreLocation, c.blockstoreLocation, b.blockstoreLocation)
      && Picks(o.databaseLocation, c.databaseLocation, b.databaseLocation)
      && Picks(o.testNameRegistry, c.testNameRegistry, b.testNameRegistry)
      && Picks(o.appUrlPasswordReset, c.appUrlPasswordReset, b.appUrlPasswordReset)
      && Picks(o.emailSmtpUrl, c.emailSmtpUrl, b.emailSmtpUrl)
      && Picks(o.emailNoReplyAddress, c.emailNoReplyAddress, b.emailNoReplyAddress)
  {
  }

  /** Overrides that name every field of a configuration. */
  function OverridesOf(c: ServerConfig): Overrides
  {
    Overrides(
      Some(c.debugMode), Some(c.publicUrl), Some(c.scheme), Some(c.port), Some(c.hostname),
      Some(c.dbPostgresUrl), Some(c.dbPostgresSchema), Some(c.jwtSecret), Some(c.didPlcUrl),
      Some(c.recoveryKey), Some(c.adminPassword), Some(c.inviteRequired),
      Some(c.blockstoreLocation), Some(c.databaseLocation), Some(c.testNameRegistry),
      Some(c.appUrlPasswordReset), Some(c.emailSmtpUrl), Some(c.emailNoReplyAddress))
  }

  /** Spreading the same overrides twice changes nothing more. */
  lemma SpreadIdempotent(c: ServerConfig, o: Overrides)
    ensures ApplyOverrides(ApplyOverrides(c, o), o) == ApplyOverrides(c, o)
  {
  }

  /** Overrides naming every field replace the whole record. */
  lemma SpreadOfFullOverrides(c: ServerConfig, d: ServerConfig)
    ensures ApplyOverrides(c, OverridesOf(d)) == d
  {
  }

  /** Overriding every field reproduces the configuration, whatever the
      environment, except that an empty overriding recovery key still needs
      `RECOVERY_KEY` to be present to pass the check. */
  lemma ReadEnvOfFullOverrides(env: map<string, string>, c: ServerConfig)
    ensures ReadEnv(env, OverridesOf(c)) ==
      if c.recoveryKey != "" || "RECOVERY_KEY" in env then Success(c) else Failure(MissingRecoveryKey)
  {
  }

  // -----------------------------------------------------------------------
  // Properties of the computed getters
  // -----------------------------------------------------------------------

  /** Without a `publicUrl` override, the public URL is `PUBLIC_URL` when
      that is present and not empty, else the origin. */
  lemma PublicUrlFromEnv(env: map<string, string>, o: Overrides)
    requires Resolvable(env, o) && o.publicUrl.None?
    ensures var c := ReadEnv(env, o).value;
      c.PublicUrl() == if "PUBLIC_URL" in env && env["PUBLIC_URL"] != "" then Some(env["PUBLIC_URL"]) else c.Origin()
  {
    OptionalSettings(env, o);
  }

  /** Without overrides, the origin is defined exactly when the port is in
      range: the hostname is never empty. */
  lemma OriginOfEnv(env: map<string, string>)
    requires "RECOVERY_KEY" in env
    ensures var c := ReadEnv(env, NoOverrides).value;
      c.Origin().Some? <==> 0 <= c.port <= Url.MaxPort
  {
  }

  // -----------------------------------------------------------------------
  // Worked examples
  // -----------------------------------------------------------------------

  /** The origin of a lower-case `http` or `https` host on a port that is
      not the scheme's default. */
  lemma LocalOrigin(scheme: string, hostname: string, port: nat, numeral: string)
    requires scheme == "http" || scheme == "https"
    requires hostname != "" && Url.AsciiLower(hostname) == hostname
    requires port <= Url.MaxPort && port != 80 && port != 443 && numeral == Decimal(port)
    ensures Url.Origin(scheme, hostname, port) == Some(scheme + "://" + hostname + ":" + numeral)
  {
    Url.OriginPort(scheme, hostname, port);
    assert scheme + "://" + hostname + (":" + numeral) == scheme + "://" + hostname + ":" + numeral;
  }

  /** `{RECOVERY_KEY: "abc"}` alone resolves to `http://localhost:2583`,
      memory stores and the literal defaults. */
  lemma ExampleDefaults()
    ensures var r := ReadEnv(map["RECOVERY_KEY" := "abc"], NoOverrides);
      && r.Success?
      && r.value.hostname == "localhost" && r.value.scheme == "http" && r.value.port == 2583
      && r.value.Origin() == Some("http://localhost:2583")
      && r.value.PublicUrl() == Some("http://localhost:2583")
      && r.value.UseMemoryBlockstore() && r.value.UseMemoryDatabase()
      && r.value.jwtSecret == "jwt_secret" && r.value.adminPassword == "admin"
      && r.value.debugMode == Some(false) && r.value.testNameRegistry == None
  {
    ExampleDefaultRecord();
    var c := ReadEnv(map["RECOVERY_KEY" := "abc"], NoOverrides).value;
    OriginOfLocalhost();
    assert c.Origin() == Url.Origin("http", "localhost", 2583);
  }

  /** The stored record for `{RECOVERY_KEY: "abc"}`. */
  lemma ExampleDefaultRecord()
    ensures var r := ReadEnv(map["RECOVERY_KEY" := "abc"], NoOverrides);
      && r.Success?
      && r.value.hostname == "localhost" && r.value.scheme == "http" && r.value.port == 2583
      && r.value.publicUrl == None && r.value.blockstoreLocation == None && r.value.databaseLocation == None
      && r.value.jwtSecret == "jwt_secret" && r.value.adminPassword == "admin"
      && r.value.debugMode == Some(false) && r.value.testNameRegistry == None
  {
    var env := map["RECOVERY_KEY" := "abc"];
    assert env.Keys == {"RECOVERY_KEY"};
    Hostname(env, NoOverrides);
    SchemeFromEnv(env, NoOverrides);
    PortFromEnv(env, NoOverrides);
    LiteralDefaults(env, NoOverrides);
    OptionalSettings(env, NoOverrides);
    Flags(env, NoOverrides);
    TestNameRegistry(env, NoOverrides);
    StorageMode(env, NoOverrides);
  }

  lemma OriginOfLocalhost()
    ensures Url.Origin("http", "localhost", 2583) == Some("http://localhost:2583")
  {
    LowerLocalhost();
    DecimalOf2583();
    LocalOrigin("http", "localhost", 2583, "2583");
    assert "http" + "://" + "localhost" + ":" + "2583" == "http://localhost:2583";
  }

  lemma LowerLocalhost()
    ensures Url.AsciiLower("localhost") == "localhost"
  {
  }

  lemma LowerExampleCom()
    ensures Url.AsciiLower("example.com") == "example.com"
  {
  }

  lemma DecimalOf2583()
    ensures Decimal(2583) == "2583"
  {
    assert Decimal(2) == "2";
    assert Decimal(25) == "25";
    assert Decimal(258) == "258";
  }

  lemma DecimalOf8080()
    ensures Decimal(8080) == "8080"
  {
    assert Decimal(8) == "8";
    assert Decimal(80) == "80";
    assert Decimal(808) == "808";
  }

  /** A non-local hostname and a numeric port without `TLS`. */
  lemma ExampleHostAndPort()
    ensures var r := ReadEnv(map["RECOVERY_KEY" := "abc", "HOSTNAME" := "example.com", "PORT" := "8080"], NoOverrides);
      && r.Success?
      && r.value.scheme == "https" && r.value.port == 8080
      && r.value.Origin() == Some("https://example.com:8080")
  {
    var env := map["RECOVERY_KEY" := "abc", "HOSTNAME" := "example.com", "PORT" := "8080"];
    assert "TLS" !in env;
    assert env["PORT"] == "8080" && env["HOSTNAME"] == "example.com";
    ParseIntOf8080();
    Hostname(env, NoOverrides);
    SchemeFromEnv(env, NoOverrides);
    PortFromEnv(env, NoOverrides);
    OriginOfExampleCom();
  }

  lemma ParseIntOf8080()
    ensures ParseInt("8080") == Some(8080)
  {
    DecimalOf8080();
    ParseIntReadsNumeral("", 8080, "");
    assert "" + "8080" + "" == "8080";
  }

  lemma OriginOfExampleCom()
    ensures Url.Origin("https", "example.com", 8080) == Some("https://example.com:8080")
  {
    LowerExampleCom();
    DecimalOf8080();
    LocalOrigin("https", "example.com", 8080, "8080");
    assert "https" + "://" + "example.com" + ":" + "8080" == "https://example.com:8080";
  }

  /** A port that is not a number falls back to 2583 without an error. */
  lemma ExampleBadPort()
    ensures var r := ReadEnv(map["RECOVERY_KEY" := "abc", "PORT" := "not-a-number"], NoOverrides);
      r.Success? && r.value.port == 2583
  {
    var env := map["RECOVERY_KEY" := "abc", "PORT" := "not-a-number"];
    assert "PORT" in env && env["PORT"] == "not-a-number";
    ParseIntOfWord();
    PortFromEnv(env, NoOverrides);
  }

  lemma ParseIntOfWord()
    ensures ParseInt("not-a-number") == None
  {
    var s := "not-a-number";
    assert s[0] == 'n';
    TrimStartOfNonWhite(s);
    ParseIntNaN(s);
  }

  /** An empty `RECOVERY_KEY` passes the check; a missing one does not. */
  lemma ExampleRecoveryKey()
    ensures ReadEnv(map["RECOVERY_KEY" := ""], NoOverrides).Success?
    ensures ReadEnv(map["RECOVERY_KEY" := ""], NoOverrides).value.recoveryKey == ""
    ensures ReadEnv(map["HOSTNAME" := "example.com"], NoOverrides) == Failure(MissingRecoveryKey)
  {
  }

  /** Overriding only the hostname keeps the scheme the environment's
      `localhost` gave. */
  lemma ExampleHostnameOverride()
    ensures var r := ReadEnv(map["RECOVERY_KEY" := "abc"], NoOverrides.(hostname := Some("example.com")));
      && r.Success?
      && r.value.scheme == "http"
      && r.value.Origin() == Some("http://example.com:2583")
  {
    var env := map["RECOVERY_KEY" := "abc"];
    var o := NoOverrides.(hostname := Some("example.com"));
    assert "TLS" !in env && "HOSTNAME" !in env && "PORT" !in env;
    SchemeFromEnv(env, o);
    PortFromEnv(env, o);
    ReadEnvUnfolds(env, o);
    OriginOfExampleComLocalPort();
  }

  lemma OriginOfExampleComLocalPort()
    ensures Url.Origin("http", "example.com", 2583) == Some("http://example.com:2583")
  {
    LowerExampleCom();
    DecimalOf2583();
    LocalOrigin("http", "example.com", 2583, "2583");
    assert "http" + "://" + "example.com" + ":" + "2583" == "http://example.com:2583";
  }
}
