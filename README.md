# Crate JDBC driver: connection URLs and connection state, in Dafny

This project models the two pieces of logic in the Crate JDBC driver that are
more than delegation to the Crate client library:

- **Connection-URL handling in `CrateDriver`.** The driver accepts URLs that
  start with `crate://` or `jdbc:crate://` (`acceptsURL`, and the prefix test
  at the start of `connect`). `parseUrl` cuts the URL at the first `?` and
  splits the query on `&` with `StringTokenizer` rules, so empty tokens are
  skipped. Each `key=value` token is checked and decoded, then written into the
  caller's `Properties` object in place; a bad token throws part-way, after the
  earlier tokens were written. `connect` then splits the path on `/` with
  `String.split` rules, which drop trailing empty strings. The number of parts
  decides: no schema, a schema name, or an invalid URL (the connection is
  closed first).
- **The connection state machine in `CrateConnection`.** A connection is
  closed exactly while it holds no metadata. Guarded methods throw on a closed
  connection and change nothing. The `strict` client-info property decides
  whether manual commit, rollback and savepoints throw or are accepted
  silently. The client-info methods set, remove, clear or replace the
  properties. `setReadOnly`/`isReadOnly` and `setSchema`/`getSchema` store
  and return their values; `setSchema` is ignored below the server version
  that supports a default schema.

Modules, one per source concern:

| module | file | what it holds |
|---|---|---|
| `Outcomes` | outcomes.dfy | `Option` (Java's null), `Failure` (the exceptions), `Outcome`/`Result` (return or throw) |
| `JavaText` | java_text.dfy | `String.indexOf`, `startsWith`, `split` with limit 0 and with limit 2, `StringTokenizer`, with their properties |
| `JavaUtil` | java_util.dfy | `Properties` as a class with a map field (shared by reference), `Boolean.valueOf` |
| `ClientHandles` | client_handles.dfy | the client handle (counts `connectionClosed` calls) and a registry stand-in |
| `Connection` | crate_connection.dfy | the `CrateConnection` class |
| `Driver` | crate_driver.dfy | `acceptsURL`, prefix stripping, `parseUrl`, the schema rule and `connect` |
| `ConnectionScenarios` | connection_scenarios.dfy | short call sequences on a connection and what they observe |

`Properties` is a class, not a value. The driver gives the caller's `info`
object to the new connection, so changes made through either reference are
seen by both. One consequence is proved by `Driver.Connect`: the
`setClientInfo(info)` call at the end of `connect` changes nothing. The
connection already holds that very object. If `info` is empty it clears an
empty map; otherwise it assigns the connection the object it already has.

Inputs from outside the driver are parameters:

- `decode` stands for `URLDecoder.decode(value, "UTF-8")`; `None` is the
  `IllegalArgumentException` it throws on a malformed escape.
- `server` is the product version the cluster reports while connecting;
  `None` means no node answered.
- `belowDefaultSchema` is the outcome of
  `VersionStringComparator.compareVersions(databaseVersion, CRATE_REQUEST_DEFAULT_SCHEMA) < 0`.

The code differs from an all-or-nothing reading of the URL grammar. A bad
query token throws after the earlier tokens were written into `info`; nothing
is rolled back (`Driver.ApplyTokensNoRollback`). The model follows the code.
The code also does not check `host:port` entries, and neither does the model.
The value check forbids `?` and `=` in the value only. A key may contain `?`
once the first `?` has split the URL (`Driver.ParsePairIff`).

## Model

| member | source | states |
|---|---|---|
| `Driver.PrefixesSpelledOut` | src/main/java/io/crate/client/jdbc/CrateDriver.java:36-39 | the short prefix is `crate://` and the long prefix is `jdbc:crate://` |
| `Driver.AcceptsUrl` | src/main/java/io/crate/client/jdbc/CrateDriver.java:130-133 | a URL is accepted iff one of the two prefixes is a prefix of it |
| `Driver.StripPrefix` | src/main/java/io/crate/client/jdbc/CrateDriver.java:60-66 | a stripped URL is a prefix followed by the result; nothing is stripped iff neither prefix matches |
| `Driver.AcceptsUrlIffStripped` | src/main/java/io/crate/client/jdbc/CrateDriver.java:131-133 | `connect` goes past the prefix test exactly for the URLs `acceptsURL` accepts |
| `Driver.StripPrefixInverse` | src/main/java/io/crate/client/jdbc/CrateDriver.java:60-63 | stripping gives back whatever followed either prefix |
| `Driver.ParsePair` | src/main/java/io/crate/client/jdbc/CrateDriver.java:104-119 | an accepted token is its key, `=`, and its value, with a well-formed key and value |
| `Driver.ParsePairIff` | src/main/java/io/crate/client/jdbc/CrateDriver.java:104-119 | a token is accepted as (key, value) iff it is key `=` value with a non-empty key free of `=` and a non-empty value free of `?` and `=` |
| `Driver.ApplyTokens` | src/main/java/io/crate/client/jdbc/CrateDriver.java:101-125 | the token loop only adds or overwrites keys, and the only exceptions it raises are the bad-format and the bad-escape ones |
| `Driver.ApplyTokensAppend` | src/main/java/io/crate/client/jdbc/CrateDriver.java:101-125 | processing tokens in two batches equals processing them at once; a failure in the first batch stops everything |
| `Driver.ApplyTokensSucceedsIff` | src/main/java/io/crate/client/jdbc/CrateDriver.java:101-124 | the token loop finishes without an exception iff every token is accepted and its value decodes |
| `Driver.ApplyTokensNoRollback` | src/main/java/io/crate/client/jdbc/CrateDriver.java:117-124 | the first rejected token raises the matching exception, and the entries written by the tokens before it stay |
| `Driver.ApplyTokensKeepsOtherKeys` | src/main/java/io/crate/client/jdbc/CrateDriver.java:117-120 | a key that no token names keeps its old entry or stays absent |
| `Driver.ApplyTokensLastWriteWins` | src/main/java/io/crate/client/jdbc/CrateDriver.java:120 | for a repeated key, the decoded value of the last accepted token with that key is what remains |
| `Driver.QueryRun` | src/main/java/io/crate/client/jdbc/CrateDriver.java:96-125 | a URL without `?` leaves the properties untouched and cannot fail; keys are only ever added |
| `Driver.QueryRunSkipsEmptyTokens` | src/main/java/io/crate/client/jdbc/CrateDriver.java:99-102 | `&&` and a trailing `&` yield no empty token, so they change neither the properties nor the verdict |
| `Driver.ParseUrl` | src/main/java/io/crate/client/jdbc/CrateDriver.java:92-128 | the loop writes the accepted tokens into the caller's properties in order; it returns the text before the first `?` or throws at the first bad token; without `?` the properties are unchanged |
| `Driver.SchemaRule` | src/main/java/io/crate/client/jdbc/CrateDriver.java:78-86 | the path `/` alone is skipped; a schema taken from the path is non-empty and free of `/` |
| `Driver.HostsOnlyNameNoSchema` | src/main/java/io/crate/client/jdbc/CrateDriver.java:78-86 | a path of hosts alone, with or without one trailing `/`, sets no schema |
| `Driver.OneSegmentNamesSchema` | src/main/java/io/crate/client/jdbc/CrateDriver.java:79-81 | one non-empty segment after the hosts, trailing `/` or not, becomes the schema name |
| `Driver.TwoSegmentsAreTooMany` | src/main/java/io/crate/client/jdbc/CrateDriver.java:82-85 | two segments after the hosts, the last non-empty, make the URL invalid |
| `Driver.SchemaNameShape` | src/main/java/io/crate/client/jdbc/CrateDriver.java:79-81 | a schema name is non-empty and free of `/`, and the path is the hosts, `/`, the name, then only `/` characters |
| `ClientHandles.ClientHandleRegistry.GetHandle` | src/main/java/io/crate/client/jdbc/CrateDriver.java:74 | a new handle bound to the requested URL, not yet signalled, appended to the handles given out |
| `ClientHandles.ClientHandle.ConnectionClosed` | src/main/java/io/crate/client/jdbc/CrateConnection.java:125 | each call is counted once more on the handle |
| `Driver.Connect` | src/main/java/io/crate/client/jdbc/CrateDriver.java:58-90 | null with no parsing, no handle and `info` untouched when no prefix matches; otherwise `info` holds what `parseUrl` wrote; a parse error, a failed connect or too many path parts throw; after a successful parse exactly one new handle, for the path, is requested; a failed connect or too many path parts close the connection first, so that handle is signalled once; otherwise a fresh open connection over `info` holding that unsignalled handle, with the schema the path names (if the server version allows it) |
| `JavaText.IndexOf` | src/main/java/io/crate/client/jdbc/CrateDriver.java:104 | -1 iff the character is absent, else the position of its first occurrence |
| `JavaText.SplitFirst` | src/main/java/io/crate/client/jdbc/CrateDriver.java:96-98 | the head holds no `?`; without a tail it is the whole URL, with a tail the URL is head, `?`, tail |
| `JavaText.SplitFirstAt` | src/main/java/io/crate/client/jdbc/CrateDriver.java:96 | the first `?` decides the halves, whatever follows it |
| `JavaText.DropTrailingEmpty` | src/main/java/io/crate/client/jdbc/CrateDriver.java:79 | the result is the longest prefix of the parts that does not end in an empty string |
| `JavaText.Split` | src/main/java/io/crate/client/jdbc/CrateDriver.java:79 | no part holds the separator, and when the separator occurs the last part is non-empty |
| `JavaText.SplitJoin` | src/main/java/io/crate/client/jdbc/CrateDriver.java:79 | joining the parts with `/` gives the path up to its trailing `/` characters |
| `JavaText.SplitTwo` | src/main/java/io/crate/client/jdbc/CrateDriver.java:79-80 | `a/b` and `a/b/`, with `b` non-empty and neither holding `/`, split into exactly `a` and `b` |
| `JavaText.SplitAllJoin` | src/main/java/io/crate/client/jdbc/CrateDriver.java:79 | joining all the pieces, empty ones included, gives back the string |
| `JavaText.JoinSplitAll` | src/main/java/io/crate/client/jdbc/CrateDriver.java:79 | splitting undoes joining pieces that hold no separator |
| `JavaText.Tokenize` | src/main/java/io/crate/client/jdbc/CrateDriver.java:99-102 | every token is non-empty and holds no `&` |
| `JavaText.TokenizeIsNonEmptySplit` | src/main/java/io/crate/client/jdbc/CrateDriver.java:99-102 | the tokenizer's tokens are exactly the non-empty pieces between delimiters, in order |
| `JavaText.TokenizeSkipsRepeatedDelimiter` | src/main/java/io/crate/client/jdbc/CrateDriver.java:99-102 | two delimiters in a row give the same tokens as one |
| `JavaText.TokenizeSkipsTrailingDelimiter` | src/main/java/io/crate/client/jdbc/CrateDriver.java:99-102 | a trailing delimiter adds no token |
| `JavaUtil.Properties.SetProperty` | src/main/java/io/crate/client/jdbc/CrateDriver.java:120 | the key maps to the new value, every other entry is unchanged |
| `JavaUtil.Properties.Remove` | src/main/java/io/crate/client/jdbc/CrateConnection.java:344 | the key has no entry afterwards; every other entry is unchanged |
| `JavaUtil.Properties.Clear` | src/main/java/io/crate/client/jdbc/CrateConnection.java:354 | the object holds no entries afterwards |
| `JavaUtil.BooleanValueOf` | src/main/java/io/crate/client/jdbc/CrateConnection.java:97-99 | true iff the string is `true` in any mix of letter cases; null is false |
| `Connection.StrictReadingsAgree` | src/main/java/io/crate/client/jdbc/CrateConnection.java:434-435 | `strict()` and `throwIfStrictMode` read the flag alike, and an absent key is not strict |
| `Connection.CrateConnection.constructor` | src/main/java/io/crate/client/jdbc/CrateConnection.java:40-44 | a new connection is closed, not read-only, has no schema and shares the given properties object |
| `Connection.CrateConnection.Connect` | src/main/java/io/crate/client/jdbc/CrateConnection.java:54-62 | with an answer from the cluster the connection is open and records the version; without one it closes (signalling the handle) and throws |
| `Connection.CrateConnection.Close` | src/main/java/io/crate/client/jdbc/CrateConnection.java:122-126 | afterwards closed and not valid for any timeout; the handle is signalled once more on every call |
| `Connection.CrateConnection.IsClosed` | src/main/java/io/crate/client/jdbc/CrateConnection.java:128-131 | closed exactly while no metadata is held |
| `Connection.CrateConnection.GetMetaData` | src/main/java/io/crate/client/jdbc/CrateConnection.java:133-137 | throws iff closed, otherwise the metadata the connection holds |
| `Connection.CrateConnection.NativeSql` | src/main/java/io/crate/client/jdbc/CrateConnection.java:82-86 | throws iff closed, otherwise returns the SQL unchanged |
| `Connection.CrateConnection.Strict` | src/main/java/io/crate/client/jdbc/CrateConnection.java:97-99 | strict iff a `strict` entry exists and reads as true; an absent key is not strict |
| `Connection.CrateConnection.ThrowIfStrictMode` | src/main/java/io/crate/client/jdbc/CrateConnection.java:434-439 | throws the feature-not-supported exception exactly when `strict()` holds |
| `Connection.CrateConnection.SetAutoCommit` | src/main/java/io/crate/client/jdbc/CrateConnection.java:88-95 | closed: throws; open: throws iff asked to disable auto-commit in strict mode |
| `Connection.CrateConnection.GetAutoCommit` | src/main/java/io/crate/client/jdbc/CrateConnection.java:101-105 | throws iff closed, otherwise true |
| `Connection.CrateConnection.Commit` | src/main/java/io/crate/client/jdbc/CrateConnection.java:107-114 | closed: throws; open: throws iff strict |
| `Connection.CrateConnection.Rollback` | src/main/java/io/crate/client/jdbc/CrateConnection.java:116-120 | closed: throws; open: throws iff strict |
| `Connection.CrateConnection.RollbackTo` | src/main/java/io/crate/client/jdbc/CrateConnection.java:250-254 | closed: throws; open: throws iff strict |
| `Connection.CrateConnection.SetSavepoint` | src/main/java/io/crate/client/jdbc/CrateConnection.java:236-241 | closed: throws; open: throws iff strict, otherwise returns null |
| `Connection.CrateConnection.SetNamedSavepoint` | src/main/java/io/crate/client/jdbc/CrateConnection.java:243-248 | closed: throws; open: throws iff strict, otherwise returns null |
| `Connection.CrateConnection.ReleaseSavepoint` | src/main/java/io/crate/client/jdbc/CrateConnection.java:256-260 | closed: throws; open: throws iff strict |
| `Connection.CrateConnection.SetReadOnly` | src/main/java/io/crate/client/jdbc/CrateConnection.java:139-143 | closed: throws and changes nothing; open: stores the flag; other fields unchanged |
| `Connection.CrateConnection.IsReadOnly` | src/main/java/io/crate/client/jdbc/CrateConnection.java:151-154 | not guarded: the stored flag, also on a closed connection |
| `Connection.CrateConnection.IsValid` | src/main/java/io/crate/client/jdbc/CrateConnection.java:331-334 | valid exactly while metadata is held, whatever the timeout |
| `Connection.CrateConnection.SetClientInfo` | src/main/java/io/crate/client/jdbc/CrateConnection.java:336-346 | closed: throws and changes nothing; open: a value sets the entry, null removes it, `getClientInfo(name)` then answers the value and every other key answers as before |
| `Connection.CrateConnection.SetAllClientInfo` | src/main/java/io/crate/client/jdbc/CrateConnection.java:348-358 | closed: throws; null or empty clears the current properties object; otherwise the given object becomes the connection's properties and the old object keeps its entries; the open/closed state does not change |
| `Connection.CrateConnection.GetClientInfo` | src/main/java/io/crate/client/jdbc/CrateConnection.java:360-364 | throws iff closed; otherwise the entry for the name, null when absent |
| `Connection.CrateConnection.GetAllClientInfo` | src/main/java/io/crate/client/jdbc/CrateConnection.java:366-370 | throws iff closed, otherwise the connection's own properties object (shared, not a copy) |
| `Connection.CrateConnection.SetSchema` | src/main/java/io/crate/client/jdbc/CrateConnection.java:384-392 | closed: throws; below the default-schema version: silently ignored; otherwise stores the schema; other fields unchanged |
| `Connection.CrateConnection.GetSchema` | src/main/java/io/crate/client/jdbc/CrateConnection.java:394-398 | throws iff closed, otherwise the stored schema |
| `Connection.CrateConnection.CheckClosed` | src/main/java/io/crate/client/jdbc/CrateConnection.java:428-432 | passes exactly while metadata is held, otherwise throws the closed-connection exception |
| `ConnectionScenarios.ReadOnlyRoundTrip` | src/main/java/io/crate/client/jdbc/CrateConnection.java:139-154 | `setReadOnly(b)` then `isReadOnly()` gives b, or the old flag when the connection was closed |
| `ConnectionScenarios.ClientInfoRoundTrip` | src/main/java/io/crate/client/jdbc/CrateConnection.java:336-364 | `setClientInfo(name, value)` then `getClientInfo(name)` gives the value back (null after a removal); on a closed connection the write is rejected and the read throws |
| `ConnectionScenarios.CloseTwice` | src/main/java/io/crate/client/jdbc/CrateConnection.java:122-126 | closing twice leaves the connection closed and signals the handle twice |
| `ConnectionScenarios.StrictModeThroughClientInfo` | src/main/java/io/crate/client/jdbc/CrateConnection.java:107-114 | with `strict` set to `TRUE` commit throws; after removing it commit passes |

## Left out

- Driver registration with `DriverManager` in the static initialiser: a process-wide side effect.
- `clientURLs`, `getPropertyInfo`, `getMajorVersion`, `getMinorVersion`, `jdbcCompliant`, `getParentLogger`: constants or delegation, with no logic.
- `ClientHandleRegistry` is not part of this model. Its sharing of one handle between connections to the same URL, its reference counting and its locking are left out. The stand-in hands back a new handle bound to the URL asked for, and records every handle it gave out, in order.
- `CrateDatabaseMetaData` queries the cluster. Only its outcome is modelled: a version, or no node available. Other exceptions it may raise are not modelled.
- `VersionStringComparator.compareVersions` and `URLDecoder.decode`: foreign calls, passed in as parameters. `UnsupportedEncodingException` cannot occur for `"UTF-8"`, so it is not modelled.
- `parseUrl` with a null `info`: the driver is only ever called with a properties object here. In the source, a null `info` is replaced by a local object the caller never sees, and the connection then holds null.
- `Properties` default chains and non-string values: the model's properties map strings to strings.
- `JavaUtil.BooleanValueOf`: uses ASCII case folding instead of Unicode case folding. The result is the same, because the only string compared is `true`.
- Statement, prepared-statement and callable-statement creation. This includes the result-set-type overloads that consult the metadata without the closed check.
- The methods that only throw `SQLFeatureNotSupportedException` (CLOB, BLOB, NCLOB, SQLXML, arrays, structs, type maps, `abort`). The other closed-checked methods whose result is a constant (catalog, transaction isolation, warnings, `setHoldability`, type map setters) are left out too. `NativeSql` models the closed check they share.
- `unwrap`, `isWrapperFor`, `setNetworkTimeout`, `getNetworkTimeout`: reflection and executors.
- `getHoldability`: returns a constant, with no closed check.
- A null `url` passed to `acceptsURL` or `connect`, and a null `name` passed to `setClientInfo`: the model's strings are never null. In the source both throw a `NullPointerException` (from `startsWith`, and from the `Hashtable` under `Properties`).
- Exception message texts.
