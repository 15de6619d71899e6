# Scheduling-group API test harness: the sequential core in Dafny

This project models the logic inside an API test-automation harness for a scheduling-group
REST service. The harness itself is mostly glue around HTTP and PostgreSQL. There are five
pieces of it whose behaviour can be stated and proved once I/O is taken out:

- **The `.env` parser and the connection comparison** (`compare-db-connections.ts`), in
  `env_file.dfy` (module `EnvFile`) and `compare_connections.dfy` (module
  `CompareConnections`).
  - `parseEnvFile` takes a file's text and fills a key/value record. It is an imperative
    loop over the lines, proved against the pure function `ParseEnv`.
  - `main` fills in the defaults, compares the two configurations field by field, lists
    the differences and masks the passwords.
- **The connection gateway** (`utils/dbClient.ts`), in `db_client.dfy` (module `DbClient`).
  - The module variable `pool` is a field of class `Gateway`.
  - The `pg` driver is an oracle `replies: nat -> Reply`: the answer to the k-th call the
    gateway makes into it, either `pool.connect()` or `client.query(...)`.
  - What the gateway does to the world goes into a ghost event log: pools created and
    ended, leases taken and released, statements run, sleeps.
  - Every method that leases a connection is proved against a pure function that gives the
    events it appends, the replies it consumes and what it returns or throws. These are
    `Probe`, `Attempts`, `InitRun`, `HealthProbe`, `LeaseQuery`, `HealthRun` and `QueryRun`.
    `CloseDBPool` and the driver primitives (`Connect`, `Execute`, `Release`, `Sleep`)
    state their events and results directly in their `ensures`.
  - The gateway never wraps an error. The driver's error is rethrown unchanged
    (utils/dbClient.ts:104, 143), and `healthCheckDB` catches nothing. A probe that returns
    no row throws a `TypeError` when its first row is read. The model carries the driver's
    error as it is and writes that `TypeError` as `NoRowToRead`.
  - Lemmas about those functions state the retry and lease policy.
  - `Gateway.Valid()` is the invariant that at most one pool is live.
- **The audit helpers** (`utils/auditHelper.ts`), in `audit_helper.dfy` (module
  `AuditHelper`).
  - `getChangedFields` is the loop over the keys of the new values, proved against the map
    comprehension `ChangedFields`.
  - The four audit statements send a fixed positional parameter vector through the
    gateway's `QueryDB` and return its first row, or all of its rows.
- **The create-request builder** (`payloads/builders/SchedulingGroupBuilder.ts`), in
  `create_payload.dfy` (module `CreatePayload`). It is a class owning one mutable request
  that holds defaults. Its setters change the request in place, and `build` validates it
  and hands out the request itself.
- **The update-request builder** (`payloads/builders/UpdateSchedulingGroupBuilder.ts`),
  in `update_payload.dfy` (module `UpdatePayload`). Its request is initially empty, `build`
  hands out the live object without any check, and `clear` installs a new empty object.

`wrappers.dfy` holds the `Option` and `Result` types. A thrown error is a `Failure`.

### Where the code and its comments disagree

The model follows the code in every case below.

- The header of utils/dbClient.ts promises that it "handles connection lifecycle
  (acquire/release)" (line 10) and "automatic connection release" (line 25). In
  `initializeDBPool` (utils/dbClient.ts:72-78), however, only a successful attempt releases
  its lease. An attempt whose probe throws, or whose probe returns no row to read, keeps its
  lease. The model keeps the lease too (`DbClient.ProbeShape`).
- Both builder files describe "immutable construction (returns new instances)"
  (SchedulingGroupBuilder.ts:24, UpdateSchedulingGroupBuilder.ts:23). In the code every
  setter mutates the one `payload` and returns `this`, and `build` returns the internal
  object.
- The update builder's file comment says that only non-empty fields are sent
  (UpdateSchedulingGroupBuilder.ts:33). No code filters them: a field set to `""` is kept
  (`UpdatePayload.AliasingScenario`).

## Model

| member | source | states |
|---|---|---|
| EnvFile.TrimStart | compare-db-connections.ts:27 | the leading part of `trim`: the result is a suffix of the input, does not start with whitespace, and only whitespace was removed |
| EnvFile.TrimEnd | compare-db-connections.ts:27 | the trailing part of `trim`: the result is a prefix of the input, does not end with whitespace, and only whitespace was removed |
| EnvFile.Trim | compare-db-connections.ts:27 | `trim` as the removal of the leading and then the trailing whitespace; its properties are those of `TrimStart`, `TrimEnd`, `TrimIdempotent` and `TrimIsSlice` |
| EnvFile.TrimIdempotent | compare-db-connections.ts:27 | trimming a trimmed line changes nothing |
| EnvFile.TrimIsSlice | compare-db-connections.ts:27 | `trim` keeps one contiguous slice with only whitespace outside it and no whitespace at either of its ends |
| EnvFile.Split | compare-db-connections.ts:24 | `split` always yields at least one piece, and no piece contains the separator |
| EnvFile.Join | compare-db-connections.ts:31 | `join`: the pieces with the separator between each two; `JoinSplit` makes it the inverse of `Split` |
| EnvFile.JoinSplit | compare-db-connections.ts:30-31 | joining the pieces of a split with the same separator gives back the original text |
| EnvFile.SplitWithout | compare-db-connections.ts:30 | text without the separator splits into itself alone |
| EnvFile.SplitAtFirst | compare-db-connections.ts:30-31 | the first piece is the text before the first `=`, and the other pieces rejoined with `=` are exactly the text after it, with any further `=` kept |
| EnvFile.StripQuotes | compare-db-connections.ts:31 | the regular expression replacement: at most one quote character removed at each end, independently; `StripQuotesUnwraps`, `StripQuotesLeadingOnly`, `StripQuotesTrailingOnly` and `StripQuotesKeepsUnquoted` state what it keeps |
| EnvFile.StripQuotesUnwraps | compare-db-connections.ts:31 | a value wrapped in any two quote characters, matching or not, loses exactly one character at each end |
| EnvFile.StripQuotesLeadingOnly | compare-db-connections.ts:31 | a value that starts with a quote character and does not end with one loses just that first character, quotes after it included (`""a` gives `"a`); a lone quote character becomes the empty string |
| EnvFile.StripQuotesTrailingOnly | compare-db-connections.ts:31 | a value that ends with a quote character and does not start with one loses just that last character |
| EnvFile.StripQuotesKeepsUnquoted | compare-db-connections.ts:31 | a value that neither starts nor ends with a quote character is kept as it is |
| EnvFile.Entry | compare-db-connections.ts:27-28 | a line whose trimmed form is empty or starts with `#` contributes nothing |
| EnvFile.EntryAtFirstEquals | compare-db-connections.ts:30-35 | a line with `=` is dropped when the `=` comes first; otherwise it assigns the trimmed text before the first `=` the text after it, trimmed and with its outer quotes removed |
| EnvFile.EntryWithoutEquals | compare-db-connections.ts:30-34 | a non-blank, non-comment line without `=` assigns the whole trimmed line the empty value |
| EnvFile.Entries | compare-db-connections.ts:26 | one contribution per line of the text |
| EnvFile.Record | compare-db-connections.ts:26-36 | the record as the `forEach` leaves it: each line's contribution applied in file order; `RecordKeys`, `LastAssignmentWins` and `SkippedLineIsInert` state its keys and values |
| EnvFile.ParseEnv | compare-db-connections.ts:23-38 | the record of a file's text: its lines cut at every newline and folded by `Record`; `ParseEnvFile` is proved equal to it |
| EnvFile.RecordKeys | compare-db-connections.ts:26-36 | a key is in the parsed record exactly when some line assigns it |
| EnvFile.LastAssignmentWins | compare-db-connections.ts:34 | the value of a key in the record is the value of its last assignment in file order |
| EnvFile.SkippedLineIsInert | compare-db-connections.ts:27-35 | deleting a skipped line from the file leaves the record unchanged |
| EnvFile.ParseEnvFile | compare-db-connections.ts:15-39 | a missing file yields the empty record; otherwise the loop over the lines yields exactly `ParseEnv` of the text |
| CompareConnections.ConfigFrom | compare-db-connections.ts:51-65 | each of the five fields is taken from its `DB_` key, with the defaults `localhost`, `5432`, `postgres`, `''` and `automation_practice`; host, port, user and database are never empty; the password is empty exactly when it is unset or empty |
| CompareConnections.IsSame | compare-db-connections.ts:85-90 | the five pairwise comparisons hold exactly when the two configurations are equal |
| CompareConnections.Check | compare-db-connections.ts:102-116 | one `if` of the report: a line exactly when the field's values differ, carrying both true values, and none for the password |
| CompareConnections.Differences | compare-db-connections.ts:102-116 | the differences block: the five checks in the order host, port, user, database, password; `DifferencesExact` states what it lists |
| CompareConnections.DifferencesExact | compare-db-connections.ts:102-116 | the differences list holds exactly the differing fields, each once, in the order host, port, user, database, password, with true values and the password without value; it is empty exactly when `isSame` holds |
| CompareConnections.Utf16Length | compare-db-connections.ts:73 | a string's `length` in UTF-16 code units, between its character count and twice that, and equal to it when all characters are in the Basic Multilingual Plane |
| CompareConnections.Mask | compare-db-connections.ts:73 | the mask is stars only, as many as the password's `length` |
| CompareConnections.MaskHidesContent | compare-db-connections.ts:73 | two passwords of the same length show the same mask |
| CompareConnections.Show | compare-db-connections.ts:68-81 | a configuration as printed: four fields as they are and the password as its mask |
| CompareConnections.CompareConnections | compare-db-connections.ts:41-124 | the report shows both configurations with masked passwords, gives the verdict `isSame`, and lists the differences exactly when the configurations differ |
| CompareConnections.MissingFilesAgree | compare-db-connections.ts:18-65 | a missing file yields the default configuration |
| DbClient.Probe | utils/dbClient.ts:70-94 | one attempt consumes at least one reply |
| DbClient.ProbeShape | utils/dbClient.ts:72-78 | an attempt connects once, never sleeps and never touches the pool; it releases its lease only when it succeeds, so a probe that throws or returns no row keeps the lease |
| DbClient.AttemptsAfterSuccess | utils/dbClient.ts:76 | a successful attempt ends the retry loop with success |
| DbClient.AttemptsAfterFailure | utils/dbClient.ts:77-93 | after a failed attempt, the loop throws that attempt's error when it was the last one; otherwise it waits 2000 ms and continues with one attempt fewer |
| DbClient.Attempts | utils/dbClient.ts:66-104 | the retry loop with a given number of attempts left: stop at the first success; after a failure wait only if attempts remain; after the last failure throw its error; `AttemptsShape`, `AttemptsPlacement`, `AttemptsPoolFree` and `AttemptsThrowLastError` state its bounds |
| DbClient.AttemptsShape | utils/dbClient.ts:66-95 | the loop makes at most 5 attempts, and all 5 when it fails; it sleeps one time fewer than it attempts; it releases exactly once, and only on success |
| DbClient.AttemptsPlacement | utils/dbClient.ts:68-94 | the waits sit only between attempts: the log starts with a connect, and every wait is directly followed by the next attempt's connect, so none comes first or last |
| DbClient.AttemptsPoolFree | utils/dbClient.ts:66-95 | the retry loop neither creates nor ends a pool |
| DbClient.AttemptsThrowLastError | utils/dbClient.ts:77-104 | a loop that fails ends with one whole attempt, and consumes the replies and throws the error of that attempt |
| DbClient.RefusedThenRetry | utils/dbClient.ts:71-93 | a refused `pool.connect()` with attempts left is the refusal, one 2-second wait, and then the remaining attempts from the next reply, nothing else |
| DbClient.InitRun | utils/dbClient.ts:41-105 | `initializeDBPool`: nothing with a pool; otherwise a pool creation before the retry loop; `InitRunPools` states its effect on pools |
| DbClient.InitRunPools | utils/dbClient.ts:42-59 | initialisation without a pool creates exactly one pool; with a pool it does nothing at all: no event, no reply consumed, no error |
| DbClient.PoolThenAttempts | utils/dbClient.ts:53-95 | a pool creation followed by the retry loop is initialisation without a pool |
| DbClient.OneMorePool | utils/dbClient.ts:53-95 | after all earlier pools were ended, initialisation leaves exactly one pool open |
| DbClient.FirstAttemptSucceeds | utils/dbClient.ts:66-76 | with a reachable database, initialisation is one lease, taken and released, and no wait |
| DbClient.ThirdAttemptSucceeds | utils/dbClient.ts:66-93 | two refused connections and then a reachable database give three attempts and two waits |
| DbClient.AllAttemptsRefused | utils/dbClient.ts:66-104 | five refused connections give five attempts and four waits, throw the fifth error, and keep the pool created before them |
| DbClient.HealthProbe | utils/dbClient.ts:115-121 | the health-check lease consumes at least one reply and never touches the pool |
| DbClient.LeaseQuery | utils/dbClient.ts:135-146 | the query lease never touches the pool; a refused connect is thrown unchanged; once connected, the rows come back unchanged or the driver's error is rethrown unchanged, and the statement is run with exactly the given parameters |
| DbClient.LeasesReleased | utils/dbClient.ts:115-146 | the health-check lease and the query lease are each released exactly once when they were taken, whether the statement throws or not, and never when the connect is refused |
| DbClient.HealthRun | utils/dbClient.ts:110-122 | `healthCheckDB`: initialisation, whose error is thrown, then one health-check lease; `LazyInitialisation` states when it initialises |
| DbClient.QueryRun | utils/dbClient.ts:127-147 | `queryDB`: initialisation, whose error is thrown, then one query lease; `LazyInitialisation` and `QueryReturnsRows` state its effect and result |
| DbClient.HealthAfterInit | utils/dbClient.ts:110-122 | a successful initialisation followed by the lease is `healthCheckDB` |
| DbClient.QueryAfterInit | utils/dbClient.ts:127-147 | a successful initialisation followed by the lease is `queryDB` |
| DbClient.LazyInitialisation | utils/dbClient.ts:110-133 | with a pool, `healthCheckDB` and `queryDB` are the lease alone; without one, each begins by creating exactly one pool; neither ever ends a pool |
| DbClient.QueryReturnsRows | utils/dbClient.ts:138-140 | a successful query returns exactly the rows the driver produced, including none |
| DbClient.Pool.constructor | utils/dbClient.ts:53-59 | the new pool records the tuning it was given |
| DbClient.Gateway.constructor | utils/dbClient.ts:35 | at load time there is no pool |
| DbClient.Gateway.Connect | utils/dbClient.ts:72 | `pool.connect()` consumes one reply and records a lease or a refusal |
| DbClient.Gateway.Execute | utils/dbClient.ts:73 | `client.query` consumes one reply and returns its rows or throws its error |
| DbClient.Gateway.Release | utils/dbClient.ts:75 | `client.release()` records a release |
| DbClient.Gateway.Sleep | utils/dbClient.ts:92 | the wait records a sleep of the given length |
| DbClient.Gateway.TryConnect | utils/dbClient.ts:71-76 | one pass of the `try` block does what `Probe` specifies |
| DbClient.Gateway.RetryConnect | utils/dbClient.ts:66-104 | the `while (retries > 0)` loop does what `Attempts` specifies for 5 attempts |
| DbClient.Gateway.InitializeDBPool | utils/dbClient.ts:41-105 | `initializeDBPool` does what `InitRun` specifies and keeps at most one live pool; it is a no-op with a pool; otherwise it creates a pool with timeouts 5000 and 30000 ms and at most 20 connections, which stays even when all attempts fail |
| DbClient.Gateway.HealthLease | utils/dbClient.ts:115-121 | the health-check lease does what `HealthProbe` specifies |
| DbClient.Gateway.HealthCheckDB | utils/dbClient.ts:110-122 | `healthCheckDB` does what `HealthRun` specifies, initialising only when there is no pool and keeping at most one live pool |
| DbClient.Gateway.QueryLease | utils/dbClient.ts:135-146 | the query lease does what `LeaseQuery` specifies |
| DbClient.Gateway.QueryDB | utils/dbClient.ts:127-147 | `queryDB` does what `QueryRun` specifies, `params` defaulting to the empty list, initialising only when there is no pool and keeping at most one live pool |
| DbClient.Gateway.CloseDBPool | utils/dbClient.ts:153-159 | `closeDBPool` ends the pool when there is one and then forgets it; it consumes no reply, `pool.end()` being taken to succeed |
| DbClient.InitialiseTwice | utils/dbClient.ts:42-104 | after a failed initialisation the pool stays, so a second `initializeDBPool` succeeds without doing anything |
| DbClient.CloseTwice | utils/dbClient.ts:153-159 | two `closeDBPool` calls end the pool once |
| AuditHelper.GetChangedFields | utils/auditHelper.ts:115-131 | the loop over the keys of the new values, in any order, yields exactly `ChangedFields` |
| AuditHelper.ChangedFields | utils/auditHelper.ts:115-131 | the changed fields as a value: one entry per key of the new values whose value is not the one the old values held; `ChangedFieldsExact` and `PatchRestoresNewValues` state what it reports |
| AuditHelper.ChangedFieldsExact | utils/auditHelper.ts:121-126 | a key is reported exactly when the new values have it and the old values lack it or hold another value; the entry records both values, the old one absent for a new key |
| AuditHelper.RemovedFieldsIgnored | utils/auditHelper.ts:121 | a key that only the old values have is never reported |
| AuditHelper.NoChangeFromItself | utils/auditHelper.ts:121-128 | diffing values against themselves reports nothing |
| AuditHelper.NothingChangedIff | utils/auditHelper.ts:121-128 | nothing is reported exactly when every new value equals the old value under its key |
| AuditHelper.PatchRestoresNewValues | utils/auditHelper.ts:121-128 | applying the reported changes to the old values gives every new value and keeps every other old value |
| AuditHelper.Untag | utils/auditHelper.ts:43 | reading an action tag back gives an action that has that tag |
| AuditHelper.InsertParams | utils/auditHelper.ts:55-94 | the audit insert sends a vector of five parameters |
| AuditHelper.InsertParamsRoundTrip | utils/auditHelper.ts:55-94 | the five columns read back from the vector are exactly the arguments it was built from |
| AuditHelper.ColumnsInverse | utils/auditHelper.ts:55-94 | every well-formed five-column vector is the vector of exactly one audit record |
| AuditHelper.Inserted | utils/auditHelper.ts:56-60 | `result[0]` of a query: the first row, absent when there is none, or the query's error; `InsertedFromQuery` states it for one row and for an error |
| AuditHelper.InsertedFromQuery | utils/auditHelper.ts:56-60 | an insert returning one row yields that row, and one that throws rethrows the driver's error |
| AuditHelper.LogCreate | utils/auditHelper.ts:55-61 | sends `[groupId, 'CREATE', null, null, userId]` through `queryDB` and returns the first row or the error |
| AuditHelper.LogUpdate | utils/auditHelper.ts:70-81 | sends `[groupId, 'UPDATE', ser(old), ser(new), userId]` through `queryDB` and returns the first row or the error |
| AuditHelper.LogDelete | utils/auditHelper.ts:88-94 | sends `[groupId, 'DELETE', null, null, userId]` through `queryDB` and returns the first row or the error |
| AuditHelper.GetAuditHistory | utils/auditHelper.ts:101-106 | sends `[groupId]` through `queryDB` and returns its rows unchanged |
| AuditHelper.ActionsDistinguishable | utils/auditHelper.ts:55-94 | creations and deletions carry two nulls, updates carry both serialised values, and creation and deletion vectors differ |
| CreatePayload.CreateRequest.constructor | payloads/builders/SchedulingGroupBuilder.ts:40-47 | the request object holds the given field values |
| CreatePayload.Validate | payloads/builders/SchedulingGroupBuilder.ts:83-88 | the two checks of `build`, the group name first; `GroupNameCheckedFirst`, `AreaCheckedSecond`, `ValidIff` and `OptionalFieldsIrrelevant` state what it accepts |
| CreatePayload.GroupNameCheckedFirst | payloads/builders/SchedulingGroupBuilder.ts:83-85 | with an empty group name the error concerns the group name, whatever the area holds |
| CreatePayload.AreaCheckedSecond | payloads/builders/SchedulingGroupBuilder.ts:86-88 | with a group name and an empty area the error concerns the area |
| CreatePayload.ValidIff | payloads/builders/SchedulingGroupBuilder.ts:82-90 | validation passes exactly when the group name and the area are both non-empty |
| CreatePayload.OptionalFieldsIrrelevant | payloads/builders/SchedulingGroupBuilder.ts:83-89 | `createdBy`, `status`, `notes` and `allocationsMenu` never decide the outcome |
| CreatePayload.DefaultsRejected | payloads/builders/SchedulingGroupBuilder.ts:39-85 | the defaults alone are rejected for the group name |
| CreatePayload.SchedulingGroupBuilder.constructor | payloads/builders/SchedulingGroupBuilder.ts:39-48 | a new builder owns a fresh request holding `''`, `automation`, `Active`, `''`, `''`, `false` |
| CreatePayload.SchedulingGroupBuilder.WithGroupName | payloads/builders/SchedulingGroupBuilder.ts:51-55 | sets only the group name and returns the same builder |
| CreatePayload.SchedulingGroupBuilder.WithCreatedBy | payloads/builders/SchedulingGroupBuilder.ts:57-60 | sets only `createdBy` and returns the same builder |
| CreatePayload.SchedulingGroupBuilder.WithStatus | payloads/builders/SchedulingGroupBuilder.ts:62-65 | sets only the status and returns the same builder |
| CreatePayload.SchedulingGroupBuilder.WithArea | payloads/builders/SchedulingGroupBuilder.ts:67-70 | sets only the area and returns the same builder |
| CreatePayload.SchedulingGroupBuilder.WithNotes | payloads/builders/SchedulingGroupBuilder.ts:72-75 | sets only the notes and returns the same builder |
| CreatePayload.SchedulingGroupBuilder.WithAllocationsMenu | payloads/builders/SchedulingGroupBuilder.ts:77-80 | sets only `allocationsMenu` and returns the same builder |
| CreatePayload.SchedulingGroupBuilder.Build | payloads/builders/SchedulingGroupBuilder.ts:82-90 | throws exactly when validation fails, with the first failing check's error; otherwise returns the builder's own request, not a copy, and changes nothing |
| CreatePayload.WorkflowTestPayload | tests/scheduling-groups.spec.ts:42-45 | a name and the status `active` without an area make `build` throw "area is mandatory" |
| CreatePayload.ChainedPayload | payloads/builders/SchedulingGroupBuilder.ts:51-89 | setters chain on one builder, the last call of a setter wins, and `build` returns exactly those values over the defaults |
| UpdatePayload.UpdateRequest.constructor | payloads/builders/UpdateSchedulingGroupBuilder.ts:43 | `{}` has no field set |
| UpdatePayload.UpdateSchedulingGroupBuilder.constructor | payloads/builders/UpdateSchedulingGroupBuilder.ts:42-44 | a new builder owns a fresh empty request |
| UpdatePayload.UpdateSchedulingGroupBuilder.WithGroupName | payloads/builders/UpdateSchedulingGroupBuilder.ts:46-49 | sets only the group name and returns the same builder |
| UpdatePayload.UpdateSchedulingGroupBuilder.WithStatus | payloads/builders/UpdateSchedulingGroupBuilder.ts:51-54 | sets only the status and returns the same builder |
| UpdatePayload.UpdateSchedulingGroupBuilder.WithArea | payloads/builders/UpdateSchedulingGroupBuilder.ts:56-59 | sets only the area and returns the same builder |
| UpdatePayload.UpdateSchedulingGroupBuilder.WithNotes | payloads/builders/UpdateSchedulingGroupBuilder.ts:61-64 | sets only the notes and returns the same builder |
| UpdatePayload.UpdateSchedulingGroupBuilder.WithAllocationsMenu | payloads/builders/UpdateSchedulingGroupBuilder.ts:66-69 | sets only `allocationsMenu` and returns the same builder |
| UpdatePayload.UpdateSchedulingGroupBuilder.Build | payloads/builders/UpdateSchedulingGroupBuilder.ts:76-78 | never fails, and returns the live request itself |
| UpdatePayload.UpdateSchedulingGroupBuilder.Clear | payloads/builders/UpdateSchedulingGroupBuilder.ts:83-86 | installs a fresh empty request, leaves the old request as it was, and returns the same builder |
| UpdatePayload.AliasingScenario | payloads/builders/UpdateSchedulingGroupBuilder.ts:76-86 | setters called after `build` show through the built request; after `clear` that request no longer follows the builder, `build` gives an empty request, and an empty string set by a setter is kept |

## Left out

- All `console.*` output is left out. It only reports, and no caller reads it.
- Reading the `.env` files (`fs.existsSync`, `readFileSync`) is left out. The file is
  given as its text, or as `None` when it does not exist.
- The `pg` library is left out: networking, the meaning of the pool's tuning, and the
  database behind it. Every driver call is answered by the `replies` oracle. The tuning
  values are only recorded.
- `pool.end()` is taken to always succeed. The driver's behaviour on a failing `end` is not
  modelled.
- The idle-client error listener (utils/dbClient.ts:61-63) is left out. It only logs and
  never changes the gateway's state.
- Real time and `setTimeout` are left out. A wait is a recorded `Slept(2000)` event.
- Concurrent callers sharing the module-level pool are left out. The code has no locking,
  and the model covers sequential call sequences only.
- SQL text has no meaning in the model. A statement is an opaque string with a parameter
  vector, and a row is a map from column names to values.
- The audit statements `INSERT_AUDIT_LOG` and `GET_GROUP_AUDIT_HISTORY` are not defined in
  db/queries.ts, so their text is a parameter of the audit methods.
- AuditHelper.LogUpdate: `JSON.stringify` is an opaque serialiser parameter, so the
  contract says nothing about the text it produces.
- AuditHelper.GetChangedFields: JavaScript's `!==` is modelled as value equality. Reference
  identity of objects, `NaN`, and a key explicitly holding `undefined` are not modelled. The
  model's map has no key order, so the order in which `for…in` visits the keys, which is the
  key order of the returned object as `Object.keys` and `JSON.stringify` show it, is not
  captured.
- AuditHelper.GetChangedFields: a JavaScript object is modelled as a map of its own keys. A
  key that `oldValues` lacks but `Object.prototype` has (such as `constructor` or
  `toString`) reads as an inherited function in the source, not as `undefined`; the model
  records it as absent. A `__proto__` key of `newValues` never becomes an own key of the
  source's result; the model records it like any other key.
- EnvFile.ParseEnvFile: the record is a map of its own keys. In the source, assigning the
  key `__proto__` a string sets no own key; the model records `__proto__` like any other
  key. No `DB_` lookup is affected.
- AuditHelper.LogCreate/LogUpdate/LogDelete/GetAuditHistory: `groupId: number` is modelled
  as an unbounded integer, and an `unknown[]` parameter vector as a sequence of `null`,
  integer and string values. Fractional or unsafe numbers and other JavaScript values are
  not modelled.
- The generated request models and status enums are not part of this model. A status is
  written by its wire value, and `Active` is taken to be `"active"`.
- `Date.now()` in the workflow test is the `stamp` parameter.
- The HTTP clients, the configuration modules, the constant tables, the test fixtures, the
  Playwright test and the diagnostic and migration scripts are not part of this model. They
  are glue around I/O with no logic of their own.
