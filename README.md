# PDS server configuration

A Dafny model of the configuration of the atproto personal data server,
`packages/pds/src/config.ts`. The model covers:

- `ServerConfig.readEnv(overrides)`. It builds one immutable record from
  three sources: the overrides object, the environment and literal
  defaults. A key present in the overrides wins outright. Without one,
  each field is read from the environment by its own rule:
  - `hostname`, `jwtSecret`, `didPlcUrl`, `adminPassword`,
    `appUrlPasswordReset` and `emailNoReplyAddress` take their variable
    when it is present and not empty, and a literal default otherwise;
  - `blockstoreLocation`, `databaseLocation`, `dbPostgresUrl` and
    `dbPostgresSchema` take the raw value of `BLOCKSTORE_LOC`,
    `DATABASE_LOC`, `DB_POSTGRES_URL` and `DB_POSTGRES_SCHEMA`, which may be
    undefined or empty, with no default;
  - `publicUrl` and `emailSmtpUrl` take `PUBLIC_URL` and `EMAIL_SMTP_URL`
    when present and not empty, and are undefined otherwise;
  - `debugMode` and `inviteRequired` are comparisons:
    `DEBUG_MODE` equal to `"1"` and `INVITE_REQUIRED` equal to `"true"`;
  - `testNameRegistry` is an empty map in debug mode, and undefined
    otherwise;
  - the scheme comes from `TLS` or the hostname; the port is read with
    `parseInt` and falls back to 2583.
- The one fatal error of `readEnv`: no recovery key.
- The getters of the resulting `ServerConfig`.

The program reads the global `process.env` and throws exceptions; the
model is pure. The environment is a parameter, a thrown error is a
`Result` or an `Option`, and the record never changes after construction,
so the model uses datatypes, functions and lemmas:

- `wrappers.dfy` (`Wrappers`): `Option` stands for a value that may be
  `undefined`, and `Result` for an operation that may throw.
- `js.dfy` (`Js`): the JavaScript behaviour the configuration depends on:
  - looking up a variable in `process.env`;
  - the `||` operator on a string that may be undefined;
  - the global `parseInt` with no radix, as in section 19.2.5 of ECMA-262:
    leading StrWhiteSpaceChar, an optional sign, a `0x`/`0X` prefix, the
    longest run of digits, and NaN when there is none;
  - the decimal numeral a template literal writes for a port.
- `url.dfy` (`Url`): the part of the WHATWG URL Standard that
  `new URL("scheme://hostname:port").origin` uses: ASCII lower-casing of
  the scheme and host, the 0..65535 port range, an empty host throwing,
  the default-port rule of the special schemes, and the serialisation of a
  tuple origin.
- `config.dfy` (`Config`):
  - `ServerConfig` is the stored record. Each plain getter returns one
    field unchanged, so the getters are the datatype's own field names.
    `Origin`, `PublicUrl`, `UseMemoryBlockstore` and `UseMemoryDatabase`
    are the computed getters.
  - `Overrides` is the partial overrides object.
  - `ReadEnv` is `readEnv`, with `process.env` passed as a map.

Behaviour of the code that the model keeps as written:

- The recovery-key check is only `typeof recoveryKey === 'string'`, so an
  empty `RECOVERY_KEY` that is present is accepted (`ExampleRecoveryKey`).
  An empty overriding key is passed over by `||` in the check, but the
  spread then stores it anyway (the `recoveryKey` ensures of `ReadEnv`;
  `ReadEnvOfFullOverrides`).
- Besides the missing recovery key, the program has a second failure: the
  `origin` getter, and `publicUrl` through it, throws when the URL
  constructor rejects its input. In the model that happens for a port
  outside 0..65535 or an empty hostname, so `Origin` and `PublicUrl`
  return `Option`. The port can come from the environment (`PORT=70000`
  or `PORT=-1`) or from an override. The hostname can be empty only through
  an override, because `HOSTNAME || 'localhost'` is never empty.
- The scheme is derived from the hostname the environment gives, not from
  an overriding hostname (`ExampleHostnameOverride`).

## Model

| member | source | states |
|---|---|---|
| Config.ReadEnv | packages/pds/src/config.ts:52-55 | `readEnv` throws `MissingRecoveryKey` exactly when the override's recovery key is absent or empty and `RECOVERY_KEY` is absent. When it succeeds, the stored key is the override's whenever the override has the key, and `RECOVERY_KEY` otherwise. |
| Config.Resolvable | packages/pds/src/config.ts:52-55 | The key check passes exactly when the override's recovery key is present and not empty, or `RECOVERY_KEY` is present (even empty). |
| Config.AcceptedKey | packages/pds/src/config.ts:52 | The key the check accepts is the override's when that is present and not empty, and `RECOVERY_KEY` otherwise. It is empty only when `RECOVERY_KEY` is present and empty. |
| Config.ServerConfig.Origin | packages/pds/src/config.ts:116-119 | In the model, the `origin` getter fails exactly for a port outside 0..65535 or an empty hostname; the program can also throw or differ on some hosts (see Left out). Otherwise it begins with the lower-cased scheme and `://`. |
| Config.ServerConfig.PublicUrl | packages/pds/src/config.ts:121-123 | The `publicUrl` getter is the stored URL when that is present and not empty, and the origin otherwise. It fails only when it falls back to an origin that fails. |
| Config.ServerConfig.UseMemoryBlockstore | packages/pds/src/config.ts:157-159 | The blockstore is in memory exactly when its location is undefined or empty. |
| Config.ServerConfig.UseMemoryDatabase | packages/pds/src/config.ts:165-167 | The database is in memory exactly when its location is undefined or empty. |
| Config.Scheme | packages/pds/src/config.ts:39-44 | The scheme is always `http` or `https`. With `TLS` present it is `https` exactly for `"1"`; otherwise it is `http` exactly for the hostname `localhost`. |
| Config.EnvPort | packages/pds/src/config.ts:45-46 | The port is what `parseInt` reads from `PORT`, and 2583 when `PORT` is absent or `parseInt` gives NaN. |
| Config.EnvValues | packages/pds/src/config.ts:35-75 | The record built from the environment stores the accepted recovery key. Its hostname is never empty and its scheme is `http` or `https`. `debugMode` is always defined, and the test registry is defined exactly in debug mode. `publicUrl` and `emailSmtpUrl` are never the empty string. |
| Config.ApplyOverrides | packages/pds/src/config.ts:96 | Spreading no overrides leaves the record unchanged. |
| Config.Hostname | packages/pds/src/config.ts:38 | Without an override, the hostname is `HOSTNAME` when that is present and not empty, else `localhost`. |
| Config.SchemeFromEnv | packages/pds/src/config.ts:39-44 | When the `TLS` key is present, the scheme is `https` exactly for the value `"1"` and `http` for any other value. Without `TLS`, it is `http` exactly when the environment's hostname is `localhost`. |
| Config.PortFromEnv | packages/pds/src/config.ts:45-46 | The port is the number `parseInt` reads from `PORT`. It is 2583 when `PORT` is absent or is not numeric, and a bad port never causes an error. |
| Config.PortReadBack | packages/pds/src/config.ts:45-46 | Putting the decimal numeral of any `p` in `PORT` makes `readEnv` succeed with port `p`. |
| Config.LiteralDefaults | packages/pds/src/config.ts:48-72 | Without an override, `jwtSecret`, `didPlcUrl`, `adminPassword`, `appUrlPasswordReset` and `emailNoReplyAddress` are their variable when it is present and not empty, and otherwise `jwt_secret`, `http://localhost:2582`, `admin`, `app://password-reset` and `noreply@blueskyweb.xyz`. |
| Config.OptionalSettings | packages/pds/src/config.ts:37-75 | `publicUrl` and `emailSmtpUrl` are undefined when their variables are absent or empty. The Postgres URL and schema are the raw values, including an empty one. |
| Config.Flags | packages/pds/src/config.ts:35-59 | `debugMode` is `DEBUG_MODE == "1"` and is always defined. `inviteRequired` holds exactly when `INVITE_REQUIRED == "true"`. |
| Config.TestNameRegistry | packages/pds/src/config.ts:64 | The test registry is the empty map exactly in debug mode and undefined otherwise. It follows the environment even when `debugMode` is overridden. |
| Config.StorageMode | packages/pds/src/config.ts:61-62 | Each location is the raw environment value. The matching store runs in memory exactly when its variable is absent or empty. |
| Config.OverridePrecedence | packages/pds/src/config.ts:52-97 | Whenever `readEnv` succeeds, including with `RECOVERY_KEY` absent and a truthy overriding key, each field whose key is in the overrides takes the override's value. Every other field keeps the value the environment and the literal defaults give it, built with the accepted recovery key. |
| Config.OverridePrecedenceOverEnv | packages/pds/src/config.ts:77-97 | With `RECOVERY_KEY` present, each field is the override's when its key is in the overrides, and the value `readEnv()` without overrides gives otherwise. |
| Config.ReadEnvUnfolds | packages/pds/src/config.ts:52-97 | Whenever the key check passes, `readEnv` returns the spread of the overrides over the environment's record, built with the accepted key (the override's when truthy, else `RECOVERY_KEY`). |
| Config.SpreadPicks | packages/pds/src/config.ts:77-97 | The spread takes each of the 18 fields from the overrides when its key is present, and from the base record otherwise. |
| Config.SpreadIdempotent | packages/pds/src/config.ts:96 | Spreading the same overrides a second time changes nothing. |
| Config.SpreadOfFullOverrides | packages/pds/src/config.ts:96 | Overrides that name every field replace the whole record. |
| Config.ReadEnvOfFullOverrides | packages/pds/src/config.ts:77-97 | Overriding every field gives back the configuration, whatever the environment. The one exception: an empty overriding recovery key still fails when `RECOVERY_KEY` is absent. |
| Config.PublicUrlFromEnv | packages/pds/src/config.ts:121-123 | Without an override, the public URL is `PUBLIC_URL` when that is present and not empty, else the origin. |
| Config.OriginOfEnv | packages/pds/src/config.ts:116-119 | In the model, without overrides, the origin fails exactly when the port resolved from `PORT` is outside 0..65535. The model's host parsing is abstracted (see Left out), so the program can also throw on some `HOSTNAME` values. |
| Config.LocalOrigin | packages/pds/src/config.ts:116-119 | For `http` or `https`, a lower-case non-empty host and a port other than the default ports, the origin is `scheme://host:port`. |
| Config.ExampleDefaultRecord | packages/pds/src/config.ts:34-98 | `{RECOVERY_KEY: "abc"}` alone stores `localhost`, `http` and port 2583, no public URL and no locations, the literal secrets, debug mode false and no test registry. |
| Config.ExampleDefaults | packages/pds/src/config.ts:34-123 | `{RECOVERY_KEY: "abc"}` alone gives `localhost`, `http` and port 2583. Origin and public URL are `http://localhost:2583`. Both stores are in memory, the literal secrets are used, and debug mode is false. |
| Config.ExampleHostAndPort | packages/pds/src/config.ts:38-46 | With `HOSTNAME=example.com`, `PORT=8080` and no `TLS`, the scheme is `https`, the port is 8080 and the origin is `https://example.com:8080`. |
| Config.ExampleBadPort | packages/pds/src/config.ts:45-46 | `PORT=not-a-number` gives port 2583 without an error. |
| Config.ExampleRecoveryKey | packages/pds/src/config.ts:52-55 | An empty `RECOVERY_KEY` is accepted and stored. An environment without the key fails. |
| Config.ExampleHostnameOverride | packages/pds/src/config.ts:38-44 | Overriding only the hostname keeps the `http` scheme that `localhost` gave, so the origin is `http://example.com:2583`. |
| Js.Lookup | packages/pds/src/config.ts:35-75 | Reading `process.env.K` gives a value exactly when `K` is in the environment, and then the environment's value for `K`. |
| Js.Truthy | packages/pds/src/config.ts:37-72 | A string that may be undefined is truthy exactly when it is defined and not empty. |
| Js.Or | packages/pds/src/config.ts:38-72 | The JavaScript `or` of a string `v` that may be undefined and a string `fallback` is `v` when `v` is present and not empty, and `fallback` when it is undefined or empty. |
| Js.OrUndefined | packages/pds/src/config.ts:37-69 | The JavaScript `or` of `v` and `undefined` is undefined exactly when `v` is undefined or empty; otherwise it is `v`, which is then not empty. |
| Js.ParseInt | packages/pds/src/config.ts:45 | `parseInt` gives a number only when something is left after the white space. A negative result comes only after a leading `-`. Text starting with a digit 1-9 after the white space always gives a non-negative number. The sign, the `0x` prefix and the digits are read by `ParseSigned`, `ParseUnsigned` and `ParseDigits`. |
| Js.ParseIntOfDecimal | packages/pds/src/config.ts:45 | `parseInt` reads the numeral of any `n` back as `n`. |
| Js.TrimStart | packages/pds/src/config.ts:45 | `parseInt` removes exactly the leading white space: the result is a suffix of the input, everything before it is white space, and it does not itself start with white space. |
| Js.LeadingWhiteSpace | packages/pds/src/config.ts:45 | The count of leading white space is the index of the first character that is not white space, or the length when there is none. |
| Js.DigitRun | packages/pds/src/config.ts:45 | `parseInt` reads the longest prefix of digits in the radix. |
| Js.Decimal | packages/pds/src/config.ts:117 | For a port, or any number below 2^53, the numeral `${port}` is made of decimal digits and has no leading zero except for 0. It is one digit long exactly below 10. |
| Js.DigitsValueOfDecimal | packages/pds/src/config.ts:117 | For a port, or any `n` below 2^53, the digits of `${n}` denote `n`. |
| Js.ParseIntReadsNumeral | packages/pds/src/config.ts:45 | `parseInt` reads `n` or `-n` back from an optional sign, the numeral of `n`, and any text that does not continue the numeral. |
| Js.TrimStartSkipsWhiteSpace | packages/pds/src/config.ts:45 | Trimming is unaffected by extra leading white space. |
| Js.ParseIntSkipsWhiteSpace | packages/pds/src/config.ts:45 | Leading white space does not change what `parseInt` reads. |
| Js.ParseIntNaN | packages/pds/src/config.ts:45-46 | `parseInt` gives NaN when no decimal digit follows the white space and the optional sign. |
| Url.AsciiLower | packages/pds/src/config.ts:117-118 | Lower-casing keeps the length and maps each character by the ASCII case rule. |
| Url.DefaultPort | packages/pds/src/config.ts:117-118 | A scheme has a default port exactly when it is `http`, `https`, `ws`, `wss` or `ftp`: 80 for `http` and `ws`, 443 for `https` and `wss`, 21 for `ftp`. |
| Url.Origin | packages/pds/src/config.ts:116-119 | The URL constructor throws exactly for a port outside 0..65535 or an empty host. Otherwise the origin is the lower-cased scheme, `://`, the lower-cased host, and `:port` unless the port is the scheme's default. |
| Url.AsciiLowerIdempotent | packages/pds/src/config.ts:117-118 | Lower-casing twice is the same as lower-casing once. |
| Url.OriginNormalised | packages/pds/src/config.ts:117-118 | The origin is already normalised: lower-casing the scheme and host first gives the same origin. |
| Url.OriginHasNoPath | packages/pds/src/config.ts:117-118 | If the host has no `/`, `?` or `#`, the origin is the lower-cased scheme and `://`, and no `/`, `?` or `#` follows. |
| Url.OriginPort | packages/pds/src/config.ts:117-118 | For `http` or `https`, port 80 or 443 respectively is left out of the origin. Any other port in range is written after a colon. |

## Left out

- `packages/api/src/client/types/tools/ozone/signature/findCorrelation.ts` is not part of this model. It is a generated RPC binding with type declarations and an error mapper that returns the error unchanged.
- `process.env` is a parameter (`env`) of `ReadEnv`. The environment is read once, and nothing else is read from outside.
- Windows' case-insensitive environment variable names are not modelled; keys are compared exactly.
- Js.ParseInt: integers are exact. The model does not capture rounding of very long numerals to a double, `-0`, or a value that exceeds the double range.
- Url.Origin: host parsing beyond ASCII lower-casing is not modelled. This covers IDNA, IPv4 and IPv6 hosts (`HOSTNAME=1234` is written as `0.0.4.210`), percent-decoding, forbidden host code points (a space makes `new URL` throw), and a host containing `:`, `/`, `?`, `@` or `#` (`HOSTNAME=example.com/x` has the origin `https://example.com`). Both `HOSTNAME` and an override can supply such a host. For these hosts the model's origin is defined where the program's may throw or differ.
- Overrides.port: an `int`, so a non-integer number override (such as 8080.5, which makes `new URL` throw) is not modelled.
- Config.ServerConfig.Origin: inherits the host-parsing gap of `Url.Origin` above. A hostname such as `a b` (a forbidden host code point) makes the program's `origin` getter throw, while the model's `Origin` is defined; `example.com/x` gives the program a different origin.
- Url.Origin: a scheme other than `http`, `https`, `ws`, `wss` and `ftp` still yields a tuple origin. The URL Standard instead gives the opaque origin `null` or throws on an invalid scheme. Only a `scheme` override can reach this case.
- Overrides: a required field (such as `port` or `jwtSecret`) overridden with an explicit `undefined` is not modelled, because the record types these fields as plain values. Optional fields do model an explicit `undefined`.
- Overrides: the type allows the keys `origin`, `useMemoryBlockstore` and `useMemoryDatabase`. The spread would copy them into the stored record, but no getter ever reads them, so they are not fields of `Overrides`.
- `jwtSecret` and `adminPassword` fall back silently to insecure literal defaults (`LiteralDefaults`) instead of failing like the recovery key. The model records this behaviour and does not judge it.
