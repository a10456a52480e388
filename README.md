# LockIn license validation, modelled in Dafny

LockIn is a page-gating product in two parts:

- a browser script (`lockin.js`) hides a page behind a password modal;
- a license backend answers "is this license valid for this web site?".

The backend comes in two variants:

- a serverless endpoint `api/v1/validate.js` over Postgres;
- a long-running Express server `server/src/index.js` over a SQLite store.

Both variants do three things:

- throttle clients with a fixed-window rate limiter;
- run the same validation ladder on each request;
- bind a license to the first host it is validated from, with a conditional update that writes only while `bound_domain` is empty.

Two command-line tools issue licenses with keys of the form `LIC-XXXX-XXXX`: one for the local store, one for Postgres.

The model is one Dafny module per source concern:

| file | module | models |
|---|---|---|
| options.dfy | `Options` | `null`/absent as `Option`, JavaScript truthiness, `x \|\| null` |
| text.dfy | `Text` | `trim`, `toUpperCase`/`toLowerCase`, `split(sep)[0]`, `includes`, `indexOf` |
| numbers.dfy | `Numbers` | the 32-bit wrap of `<<`/`&`, `toString(radix)`, `parseInt(s, 10)` |
| env.dfy | `Env` | `getEnv`, `parseBool` |
| http.dfy | `Http` | status code plus JSON body |
| db_url.dfy | `DbUrl` | `resolveDatabaseUrl` |
| license_store.dfy | `LicenseStore` | the license table, `get`/`insert`/`bindIfEmpty` (class `Store`) |
| rate_limit.dfy | `RateLimit` | `getClientIp`, the limiter (class `Limiter`) |
| protocol.dfy | `Protocol` | the shared input checks and decision ladder |
| api_validate.dfy | `ApiValidate` | the serverless handler (class `Endpoint`) |
| server_app.dfy | `ServerApp` | the Express middleware and route (class `App`) |
| keygen.dfy | `KeyGen` | `getArg`, `randomKey`, the ten-candidate search |
| issue_license.dfy | `IssueLicense` | `server/tools/issue-license.js` |
| issue_license_pg.dfy | `IssueLicensePg` | `tools/issue-license-pg.js` |
| lockin.dfy | `Lockin` | `hashPassword`, `getConfig`, the session flag, `handleSubmit` (classes `Config`, `Page`) |

## Modelling choices

**Code that mutates state.** It is a class whose methods are proved equal to a pure function of the old state:

- `Store` holds a `map` of rows;
- `Limiter` holds a `map` of buckets;
- `Endpoint` holds the memoised schema promise;
- `Config` holds the configuration object;
- `Page` holds the session storage and the modal's state.

The properties are then lemmas about those functions, for single calls and for sequential runs.

**Loops.** The source's loops are methods with loop invariants:

- `chunk`: `KeyGen.Chunk`;
- the candidate loops: `IssueLicense.Run`, `IssueLicensePg.Lookups`;
- the hash loop: `Lockin.HashPassword`;
- the script-tag search: `Lockin.FindScriptTag`.

**Code written twice.** It is modelled once:

- `getEnv` and `parseBool`: in `api/v1/validate.js:6-14` and `server/src/index.js:11-19`;
- `getClientIp` and the limiter: in `api/_shared/rateLimit.js` and `server/src/index.js:21-48`;
- `resolveDatabaseUrl`: in `tools/dbUrl.js` and `api/v1/validate.js:21-45`;
- `getArg` and `randomKey`: in both issuing tools.

**How the two variants differ.** Each is modelled as written:

- the serverless endpoint replies `bound: changed`;
- the Express route always replies `bound: true`.

**The lost race.** Neither variant re-reads the row after losing the bind. A race loser therefore gets `ok: true` with its own host even when another host won the bind, rather than `DOMAIN_MISMATCH`. `ApiValidate.RaceLoserStillSucceeds` and `ServerApp.RaceLoserReportsBound` state this.

**Where the Dafny names differ from the source's.**

- **Calls that go outside the core are parameters:**
  - Origin parsing (`new URL(origin).host`) is `hostOf: string -> Option<string>`, where `None` means it throws.
  - `encodeURIComponent` is `encode`.
  - `Number(...)` of the rate-limit settings is `toNumber`.
  - JSON in the browser script is `encode`/`decode`.
- **Environment:** the process environment is a `map<string, string>`.
- **argv:** a `seq<string>`.
- **Clocks:** `Date.now()` is `now`, and the ISO timestamps are `ts`.
- **`Math.random`:** the oracle `random: nat -> Draw`. Draw n is already scaled to an alphabet index in 0..31, and the i-th candidate consumes draws 8i to 8i+7.
- **Database faults** in the Postgres variants are inputs:
  - `Faults` in the endpoint;
  - `failAt`, the index of the query that throws, in the tool.
- **Exit codes and console output:** the tools' `Outcome` datatypes.

## Model

| member | source | states |
|---|---|---|
| Options.OrNull | server/src/licenseStore.js:25-26 | `x \|\| null` gives null exactly for a missing or empty string and the string itself otherwise |
| Text.TrimIsSlice | api/_shared/rateLimit.js:5 | `trim` returns a slice `s[i..j]` with only white space before `i` and after `j`; a non-empty result starts and ends with non-white-space |
| Text.Trim | api/v1/validate.js:152 | `trim` never lengthens a string; where it cuts is stated by `Text.TrimIsSlice` |
| Text.TrimEmptyIffAllSpace | api/v1/validate.js:152-153 | a trimmed value is empty exactly when the whole value is white space |
| Text.TrimUnpadded | server/src/index.js:88 | a value without surrounding white space is unchanged by `trim` |
| Text.TrimAvoids | api/_shared/rateLimit.js:5 | trimming introduces no character that was not there |
| Text.ToUpperIdempotent | server/tools/issue-license.js:30 | upper-casing an upper-cased string changes nothing |
| Text.FirstSegment | api/_shared/rateLimit.js:5 | `split(sep)[0]` is the longest prefix without `sep`, stopping at the first `sep` |
| Text.Includes | lockin.js:50 | `includes(sub)` holds exactly when `sub` occurs at some position |
| Text.IndexOf | server/tools/issue-license.js:10 | `indexOf` is -1 exactly when the element is absent, otherwise the first position holding it |
| Numbers.Int32 | lockin.js:107-108 | ToInt32 yields the signed 32-bit value congruent to its argument modulo 2^32 |
| Numbers.Int32Congruent | lockin.js:107-108 | values congruent modulo 2^32 wrap to the same 32-bit value |
| Numbers.NatDigits | lockin.js:110 | `toString(radix)` digits are non-empty, have no leading zero and a first digit below the radix |
| Numbers.NatDigitsAreDigits | lockin.js:110 | every digit produced is a digit of the radix |
| Numbers.NatDigitsRoundTrip | lockin.js:110 | reading the digits back in the same radix gives the number |
| Numbers.ToRadix | lockin.js:110 | the rendering starts with `-` exactly for negative numbers |
| Numbers.DecimalPrefix | lockin.js:314 | `parseInt` reads the longest run of decimal digits, which stops at the first non-digit |
| Numbers.ParseDecimalOfToRadix | lockin.js:314-315 | `parseInt(String(n), 10) == n` for every integer, so the stored counter reads back as written |
| Numbers.ParseDecimalOfDigits | lockin.js:69 | a non-empty string of digits parses as its decimal value |
| Numbers.ParseDecimalOfNegated | lockin.js:314 | a minus sign followed by digits parses as the negated value |
| Numbers.ParseDecimal | lockin.js:69 | `parseInt(s, 10)` is NaN exactly when no decimal digit follows the leading white space and an optional sign, and is negative only after a leading minus |
| Env.GetEnv | api/v1/validate.js:6-9 | `getEnv` gives the variable when it is set and non-empty, the fallback otherwise |
| Env.ParseBool | api/v1/validate.js:11-14 | `parseBool` gives the fallback for an unset or empty value, and otherwise true exactly for the spellings of "true" in any letter case |
| Env.ParseBoolExamples | server/src/index.js:16-19 | "TRUE" and "True" are true; "1", "yes", "false" and " true" are false; an empty value gives the fallback |
| DbUrl.FilterUsable | tools/dbUrl.js:6-10 | the result is empty exactly when no candidate is a string with non-blank trimmed content, and otherwise its head is the first such candidate |
| DbUrl.FilterUsableSingle | tools/dbUrl.js:10 | one candidate is kept exactly when it is a string with non-blank trimmed content |
| DbUrl.FilterUsableAppend | tools/dbUrl.js:6-10 | filtering a concatenation is the concatenation of the filtered parts; with the single-candidate case this makes the result exactly the usable candidates, in their order |
| DbUrl.FilterUsableOnlyUsable | tools/dbUrl.js:10 | every string in the result is the value of a usable candidate |
| DbUrl.ResolveDatabaseUrl | tools/dbUrl.js:3-27 | a resolved connection string is never empty |
| DbUrl.DatabaseUrlWins | tools/dbUrl.js:4 | a non-empty DATABASE_URL is returned untouched, white-space-only included, whatever else is set |
| DbUrl.FirstUsableCandidateWins | tools/dbUrl.js:6-12 | without DATABASE_URL, the first of POSTGRES_URL, POSTGRES_PRISMA_URL, POSTGRES_URL_NON_POOLING with non-blank content is returned untrimmed |
| DbUrl.CompositeFallback | tools/dbUrl.js:14-26 | without those, the composite URL is built exactly when host, user, password and database are non-empty, with port defaulting to 5432; otherwise null |
| DbUrl.CompositeRoundTrip | tools/dbUrl.js:21-23 | the composite splits back into encoded user, encoded password, raw `host:port` and encoded database, provided the encoded user holds no `:`, the encoded password no `@`, and the unencoded `host:port` no `/` |
| DbUrl.SplitAtJoin | tools/dbUrl.js:21-23 | cutting `a + sep + b` at its first `sep` gives back `a` and `b` when `a` holds no `sep` |
| LicenseStore.Find | server/src/licenseStore.js:12 | the lookup finds a record exactly when the key is in the table, with that row's columns |
| LicenseStore.Store.Get | server/src/licenseStore.js:19-21 | `get` returns the record stored under exactly that key, or absent, and changes nothing |
| LicenseStore.Store.Insert | server/src/licenseStore.js:23-27 | `insert` leaves the table and result `InsertRow` gives: a new row with normalised email and domain, or no write for a duplicate key |
| LicenseStore.Store.BindIfEmpty | server/src/licenseStore.js:29-33 | `bindIfEmpty` performs the conditional update `BindRow` and reports whether it wrote |
| LicenseStore.InsertThenLookup | server/src/licenseStore.js:23-26 | a new key is inserted with empty email and domain as NULL and equal timestamps, is found again as the returned record, and no other row changes |
| LicenseStore.InsertDuplicateFails | server/src/licenseStore.js:8-10 | inserting an existing key fails on the primary key and writes nothing |
| LicenseStore.BindSucceedsIffUnbound | server/src/licenseStore.js:14-16 | the bind succeeds exactly when the row exists with a NULL or empty domain; it then writes the domain and `updated_at`, and changes nothing otherwise |
| LicenseStore.BindChangesOnlyItsRow | server/src/licenseStore.js:15 | the bind adds no row, changes no other row, and keeps the status, email and creation time |
| LicenseStore.BoundRowIsFinal | server/src/licenseStore.js:15 | once a row holds a non-empty domain, every later bind returns false and changes nothing |
| LicenseStore.FirstBindWins | server/src/licenseStore.js:29-33 | on an unbound row, exactly the first of a run of binds with a non-empty first domain returns true, and the row ends bound to that first domain |
| LicenseStore.EmptyDomainBindsTwice | server/src/licenseStore.js:15 | binding the empty domain reports success but leaves the row unbound, so the next bind succeeds too |
| LicenseStore.RowsPersistAndBindingIsFinal | server/src/licenseStore.js:23-33 | over any sequence of inserts and binds, an existing row stays, keeps status, email and creation time, and a non-empty binding never changes |
| RateLimit.ClientIp | api/_shared/rateLimit.js:3-7 | the identity is the trimmed first comma-separated entry of a non-empty `x-forwarded-for`, else the peer address, else "unknown" |
| RateLimit.ClientIpFromHeader | server/src/index.js:21-25 | an identity from the header holds no comma and no surrounding white space, and is a slice of the header |
| RateLimit.FirstEntryIsSlice | api/_shared/rateLimit.js:5 | the trimmed first entry is a contiguous slice of the header |
| RateLimit.ClientIpExamples | api/_shared/rateLimit.js:5 | the header " a,b" gives the identity "a", ahead of the socket address |
| RateLimit.ClientIpFallbackExamples | api/_shared/rateLimit.js:5-6 | an empty header falls back to the socket address and a missing address to "unknown"; an empty first entry gives "" |
| RateLimit.Limiter.RateLimit | api/_shared/rateLimit.js:12-31 | the limiter updates its buckets as `Hit` does and rejects with 429 RATE_LIMITED exactly when `Hit` denies |
| RateLimit.FreshWindowAllows | api/_shared/rateLimit.js:17-20 | with no bucket or an expired one, the bucket becomes count 1 with window end `now + windowMs`, and the request passes |
| RateLimit.InWindowCounts | api/_shared/rateLimit.js:22-28 | inside the window the count grows by one even on a denial, the window end stays, and the request is denied exactly when the new count exceeds `max` |
| RateLimit.HitTouchesOneBucket | api/_shared/rateLimit.js:15-22 | only the caller's bucket is created or changed |
| RateLimit.RunInsideWindow | api/_shared/rateLimit.js:22-30 | calls before the window end add one each to the same bucket, and call i passes exactly when its count is at most `max` |
| RateLimit.ExactlyMaxPerWindow | api/_shared/rateLimit.js:17-30 | in one window call i (from 0) passes exactly when i == 0 or i < max, so with `max` >= 1 exactly `max` calls pass and call `max + 1` is denied |
| RateLimit.AllowedAgainAfterReset | api/_shared/rateLimit.js:17-19 | the first call at or after the window end passes and opens a new window from that instant |
| Protocol.InputChecksInOrder | api/v1/validate.js:152-176 | MISSING_LICENSE, then MISSING_ORIGIN, then INVALID_ORIGIN, each exactly under its condition and with status 400; only a request passing all three reaches the store, with the trimmed key and parsed host |
| Protocol.CheckInput | api/v1/validate.js:152-176 | every rejection is a 400 failure; an accepted request carries the non-empty trimmed license and the host its present Origin parses to |
| Protocol.BlankLicenseIsMissing | server/src/index.js:88-92 | a white-space-only license is a missing license |
| Protocol.NotFoundFirst | server/src/index.js:108-112 | no record gives 403 LICENSE_NOT_FOUND before any status check |
| Protocol.InactiveIsRefused | api/v1/validate.js:203-208 | a status that is not ACTIVE in any letter case gives 403 LICENSE_INACTIVE, whatever the binding, host or policy |
| Protocol.SuccessOnlyForBoundHost | server/src/index.js:114-136 | a direct success reply only ever goes to an existing, active record bound to exactly the requesting host |
| Protocol.BindOnlyWhenUnbound | api/v1/validate.js:210-218 | the bind step is chosen exactly for an active, unbound record under auto-bind; without auto-bind such a record gets LICENSE_NOT_BOUND |
| Protocol.Decide | api/v1/validate.js:196-247 | the bind step is chosen exactly for an existing, active, unbound record under auto-bind; every direct reply is 200 or 403, and a success only for an active record bound to the requesting host |
| Protocol.BoundRecordDecides | api/v1/validate.js:238-247 | an active record bound to a non-empty domain gives 200 `bound: true` for that host and DOMAIN_MISMATCH for any other |
| Protocol.StatusCaseExamples | server/src/index.js:114 | "active", "Active" and "ACTIVE" are active; "INACTIVE", " ACTIVE" and "" are not |
| ApiValidate.SchemaFailure | api/v1/validate.js:133-142 | a failed schema gives a 500 failure; a non-empty error code is passed on and any code but DB_ERROR is the error's own; the message differs from the generic one only for MISSING_DATABASE_URL, and is then the error's own message |
| ApiValidate.Endpoint.HandleRequest | api/v1/validate.js:108-248 | the handler leaves buckets, table and schema promise as `Handle` does, and returns its reply |
| ApiValidate.Endpoint.LookupAndBind | api/v1/validate.js:196-247 | after the lookup the reply and the table are those `AfterLookup` gives from the old table |
| ApiValidate.MethodChecksComeFirst | api/v1/validate.js:115-126 | OPTIONS gets 204 and any other non-POST method 405 METHOD_NOT_ALLOWED, with no state touched |
| ApiValidate.RateLimitStopsEverything | api/v1/validate.js:128-129 | a rate-limit denial replies 429 RATE_LIMITED and leaves the schema and the table alone |
| ApiValidate.RejectedSchemaIsSticky | api/v1/validate.js:88-106 | a rejected schema promise is kept, and every later admitted POST gets the same 500 with the table untouched |
| ApiValidate.MissingConfigurationReported | api/v1/validate.js:68-78 | with no resolvable connection string the first admitted POST gets 500 MISSING_DATABASE_URL with the configuration message |
| ApiValidate.OnlyAutoBindWrites | api/v1/validate.js:212-236 | the table changes only through a successful conditional update, answered with 200 `bound: true` |
| ApiValidate.AfterLookupWrites | api/v1/validate.js:220-228 | after the lookup, a write happens only on the bind path without an update fault, and the reply then says `bound: true` |
| ApiValidate.AutoBindSequential | api/v1/validate.js:220-228 | auto-binding an active, unbound license with no race replies 200 `bound: true` and binds it to the host |
| ApiValidate.RaceLoserStillSucceeds | api/v1/validate.js:225-228 | a request whose update finds the license already bound elsewhere still gets 200 `ok: true` with its own host and `bound: false`, and the winner's binding stays |
| ServerApp.App.HandleRequest | server/src/index.js:59-137 | the JSON parser, preflight, limiter and route leave buckets and table as `Serve` does, and return its reply, or none for a request passed on to another route |
| ServerApp.BodyErrorsComeFirst | server/src/index.js:59 | a body the JSON parser refuses gets the parser's status and a non-JSON page, with buckets and table unchanged |
| ServerApp.MiddlewareCallsNextIffAllowed | server/src/index.js:30-47 | for a parsed, non-preflight request the limiter passes it on exactly when it allows it, otherwise replies 429 RATE_LIMITED without touching the table; a request passed on to another route gets no reply and leaves the table alone |
| ServerApp.ValidateStatuses | server/src/index.js:87-137 | the route only ever answers 200, 400 or 403 |
| ServerApp.NoAutoBindNoWrite | server/src/index.js:120-128 | without auto-bind the route never writes the table |
| ServerApp.RaceLoserReportsBound | server/src/index.js:121-123 | a request whose bind lost the race still gets `ok: true, bound: true` with its own host, and the table keeps the other domain |
| ServerApp.FirstRequestBinds | server/src/index.js:119-124 | the first auto-bind request from host h on an active, unbound license gets 200 `bound: true` and binds it to h, keeping its status |
| ServerApp.BoundLicenseIsStable | server/src/index.js:119-136 | after binding to h, every later call for the license among any other calls gets 200 from h and DOMAIN_MISMATCH from any other host, and the binding stays h |
| ServerApp.NoAutoBindStaysUnbound | server/src/index.js:120-128 | without auto-bind every call for an active, unbound license gets LICENSE_NOT_BOUND and the table never changes |
| ServerApp.ExampleBindThenMismatch | server/src/index.js:87-137 | the LIC-AAAA-1111 scenario: the first request from example.com is bound with 200; the next from other.com gets 403 DOMAIN_MISMATCH |
| KeyGen.GetArg | server/tools/issue-license.js:9-13 | `getArg` is null for an absent flag; otherwise the element after the first occurrence, or null when that element is missing or empty |
| KeyGen.GetArgExamples | tools/issue-license-pg.js:5-9 | the element after the flag is taken even when it looks like another flag |
| KeyGen.GetArgMissingExamples | tools/issue-license-pg.js:5-9 | a flag that is last, is followed by "", or is absent gives null |
| KeyGen.StatusArg | server/tools/issue-license.js:30 | a given `--status` is kept, upper-cased; without one the status is ACTIVE; the result is always upper case |
| KeyGen.AlphabetCharacters | server/tools/issue-license.js:17 | the alphabet has 32 characters: upper-case letters except I and O, and digits except 0 and 1 |
| KeyGen.AlphabetDistinct | server/tools/issue-license.js:17 | no alphabet character occurs twice |
| KeyGen.ChunkAt | server/tools/issue-license.js:18-24 | a chunk of n draws has n characters, all from the alphabet |
| KeyGen.Chunk | server/tools/issue-license.js:18-24 | the `chunk` loop builds the characters of the n draws in order |
| KeyGen.RandomKey | tools/issue-license-pg.js:11-20 | `randomKey` is "LIC-", four drawn characters, "-", four more |
| KeyGen.KeyAtIsLicenseKey | server/tools/issue-license.js:15-26 | every key is 13 characters of the form LIC-XXXX-XXXX with each X from the alphabet |
| KeyGen.KeyDeterminesDraws | server/tools/issue-license.js:15-26 | two keys are equal only when they came from the same eight draws |
| KeyGen.FirstFree | server/tools/issue-license.js:45-51 | the search yields the first candidate below ten that is not in the table (all before it are taken), or nothing when all are taken |
| IssueLicense.Run | server/tools/issue-license.js:28-61 | `main` leaves the table and outcome `Issue` gives |
| IssueLicense.UsageIffNoEmail | server/tools/issue-license.js:33-38 | the tool stops with the usage error exactly when `--email` is missing, and then writes nothing |
| IssueLicense.NoUniqueKeyIffAllTaken | server/tools/issue-license.js:53-55 | the tool throws exactly when all ten candidates are taken, and then writes nothing |
| IssueLicense.IssuedIsFirstFreeCandidate | server/tools/issue-license.js:44-60 | an issued key is the first untaken candidate and has the LIC-XXXX-XXXX form; its row holds the upper-cased status, the email, the domain or NULL, and equal timestamps; the rest of the table is unchanged |
| IssueLicense.IssuedRoundTrip | server/tools/issue-license.js:57-60 | what the tool prints is what the store then returns for that key |
| IssueLicense.IssueKeepsRows | server/tools/issue-license.js:57 | issuing never changes or removes an existing row |
| IssueLicensePg.Lookups | tools/issue-license-pg.js:61-69 | the candidate loop ends at the first free candidate, a thrown query, or after ten taken candidates, as `SearchResult` says |
| IssueLicensePg.Run | tools/issue-license-pg.js:22-83 | `main` leaves the table and outcome `Issue` gives |
| IssueLicensePg.Queries | tools/issue-license-pg.js:49-76 | the schema statement, existence checks and insert leave the table and outcome `RunQueries` gives |
| IssueLicensePg.ChecksBeforeQueries | tools/issue-license-pg.js:27-42 | the usage error comes exactly when `--email` is missing and MissingDatabaseUrl exactly when only DATABASE_URL is; neither, nor any failure, writes |
| IssueLicensePg.QueriesOutcomes | tools/issue-license-pg.js:49-79 | the queries end in a failure that writes nothing, or a license issued with the given status, email and domain |
| IssueLicensePg.AgreesWithLocalTool | tools/issue-license-pg.js:22-83 | without faults the Postgres tool issues the same key, writes the same row and fails in the same cases as the local tool |
| IssueLicensePg.FaultFreeQueries | tools/issue-license-pg.js:61-76 | without faults the first free candidate is inserted, or nothing is written when all ten are taken |
| IssueLicensePg.FailedQueryWritesNothing | tools/issue-license-pg.js:49-83 | a query that throws before the insert completes rejects the run and leaves the table as it was |
| IssueLicensePg.FailedQueryQueries | tools/issue-license-pg.js:49-76 | the same for the query sequence alone |
| IssueLicensePg.LateFaultIsHarmless | tools/issue-license-pg.js:49-83 | a fault in a query the run never reaches changes nothing |
| IssueLicensePg.LateFaultQueries | tools/issue-license-pg.js:49-76 | the same for the query sequence alone |
| Lockin.Utf16 | lockin.js:105-106 | `charCodeAt` reads one or two code units below 2^16 per character |
| Lockin.HashCode | lockin.js:104-109 | the running hash stays a signed 32-bit value |
| Lockin.HashCodeIsPolynomial | lockin.js:104-109 | the wrapped hash equals the polynomial sum of the units in powers of 31, reduced to 32 signed bits |
| Lockin.ShiftStep | lockin.js:107-108 | `((h << 5) - h) + c` followed by `h & h` is int32(31 h + c) |
| Lockin.HashPassword | lockin.js:103-111 | the loop computes the base-36 rendering of the wrapped polynomial hash |
| Lockin.HashExamples | lockin.js:103-111 | the empty password hashes to "0" and "a" to "2p" |
| Lockin.FirstGateScript | lockin.js:48-54 | the search finds the first script whose `src` mentions lockin or that has `data-lockin-key`, or none exactly when no script qualifies |
| Lockin.FindScriptTag | lockin.js:48-54 | the search loop returns that first tag |
| Lockin.AttrOr | lockin.js:62-68 | `getAttribute(name) \|\| fallback` is the attribute when set and non-empty, the fallback otherwise |
| Lockin.Config.GetConfig | lockin.js:43-86 | `getConfig` leaves the configuration and result `Load` gives |
| Lockin.LoadReadsFirstTag | lockin.js:43-86 | with no qualifying tag nothing changes and the result is undefined; otherwise the first tag is read and the result is true exactly when it names a key and a password |
| Lockin.ConfigureFallsBack | lockin.js:62-68 | each text field is the attribute when set and non-empty and keeps its previous value otherwise; branding link and text stay |
| Lockin.CompleteIffKeyAndPassword | lockin.js:75-85 | the configuration is accepted exactly when key and password attributes are both non-empty |
| Lockin.BrandingHiddenIff | lockin.js:71-72 | branding is hidden exactly for the attribute values "hide" and "false" |
| Lockin.MaxAttemptsDefault | lockin.js:69 | a missing or empty attempt limit is 0, meaning unlimited |
| Lockin.MaxAttemptsExamples | lockin.js:69 | "5" gives 5 and "abc" gives NaN |
| Lockin.IsAuthenticated | lockin.js:89-100 | the check passes only when a non-empty record decodes to the current key and the hash of the current password |
| Lockin.SetAuthenticated | lockin.js:114-120 | the auth entry holds the encoded record of the current key, password hash and time; every other entry is kept and no other key appears |
| Lockin.NotAuthenticatedWithoutRecord | lockin.js:90-99 | nothing stored, an empty value or one that does not parse is not authenticated |
| Lockin.SetThenAuthenticated | lockin.js:114-120 | after `setAuthenticated` the check passes under the same configuration, if JSON reads back what it wrote |
| Lockin.OtherKeyNotAuthenticated | lockin.js:94 | a stored record does not count for another license key |
| Lockin.Page.HandleSubmit | lockin.js:288-326 | `handleSubmit` leaves the page state `Submit` gives |
| Lockin.Page.RecordAttempt | lockin.js:313-324 | the attempt tracking stores the incremented count, then locks out or warns, as `Counted` says |
| Lockin.RightPasswordUnlocks | lockin.js:297-300 | the right password sets a session flag that passes the check and closes the modal, leaving the counter as it was |
| Lockin.UnlimitedNeverCounts | lockin.js:303-313 | without a limit a wrong password only shows the error message |
| Lockin.CountOfText | lockin.js:314-315 | the written counter reads back as the number written (NaN as NaN) |
| Lockin.WrongPasswordCounts | lockin.js:313-315 | under a limit a wrong password adds exactly one to the stored count, NaN stays NaN, and the modal stays open |
| Lockin.WrongPasswordLocks | lockin.js:317-320 | under a limit the gate locks exactly when it was locked or the new count reaches the limit |
| Lockin.WrongPasswordMessage | lockin.js:317-323 | the error text is the lockout text at the limit, the remaining count when at most two remain, and the configured message otherwise |
| Lockin.WrongStep | lockin.js:313-320 | one wrong submission from count m gives m + 1 and locks exactly when locked or m + 1 reaches the limit |
| Lockin.CountingRun | lockin.js:313-320 | any run of k counting steps from n reaches n + k and locks exactly when it was locked or n + k reached the limit |
| Lockin.RejectCountsOne | lockin.js:313-320 | a wrong submission under a limit is such a counting step |
| Lockin.RepeatedWrongAttempts | lockin.js:313-320 | after k wrong submissions from count n the counter reads n + k, and the gate is locked exactly when it was or n + k reached the limit |
| Lockin.UnlimitedRunKeepsStorage | lockin.js:313 | without a limit no run of wrong submissions touches session storage or the lock |

## Left out

- DOM and browser plumbing of `lockin.js` are left out, since they are presentation rather than the gating logic. This covers:
  - `createModal`, `removeModal`, `escapeHtml`, `init` and `window.LockInInitialized`;
  - `setTimeout`, focus and the shake class;
  - `console.error`.

  The page is reduced to the error text and its visibility, the disabled input and submit (`locked`), whether the modal is open, and session storage as a string map.
- JSON in `lockin.js` is the parameter pair `encode`/`decode`, because the serializer is outside the core. The session-flag lemmas assume `decode` reads back the two fields `encode` wrote.
- `Lockin.Config`: the configuration object is held as one record-valued field rather than eleven fields; the values and the update are the same.
- Text.UpperChar: `toUpperCase` covers ASCII letters and U+0131 (dotless i, upper case `I`). No other character upper-cases into a letter of "ACTIVE". So the status check is exact, but the issuing tools' upper-casing of a non-ASCII `--status` is not modelled.
- Text.LowerChar: `toLowerCase` covers ASCII letters. No other character lower-cases into a letter of "true", so `parseBool` is exact.
- Numbers.ParseDecimal: `parseInt` reads the integer exactly. The rounding of very long digit strings to a double is not modelled, and neither is `toString`'s exponent form above 10^21.
- Origin parsing (`new URL(origin).host`, WHATWG URL Standard section 3.5 host parsing) is the parameter `hostOf`; `None` means the constructor throws.
- `encodeURIComponent`, `Number(...)` and time are parameters: `encode`, `toNumber`, `now` and `ts`. The Postgres tool's `DEFAULT NOW()` for both timestamps is the single `ts`.
- Persistence engines are replaced by the map-based table:
  - `pg` pools and `better-sqlite3` connections and their options (`PGSSLMODE`);
  - `getPool` memoisation and `pool.end`;
  - the schema DDL statements, both in `ensureSchema` and in the Postgres tool.

  Whether a Postgres statement throws is an input. A thrown update is modelled as not applied.
- Errors thrown by SQLite calls in the Express route and in the local tool, other than a duplicate key, are not modelled, because the engine is outside the model.
- Concurrency is left out: calls are sequential. The conditional update is assumed atomic. A lost race is modelled by letting the update run on a table that differs from the one read.
- HTTP plumbing: CORS headers, `helmet`, and how `readJsonBody` and `express.json` parse a body. In the serverless endpoint a body that fails to parse (`api/v1/validate.js:145-150`), lacks `license` or holds a non-string there is the input `licenseField == None`. In the Express server the parser's verdict is the input `bodyError`: a status (400 for a body that does not parse, 413 for one over 32 kB) answered with Express's own error page before the preflight check and the limiter, so no bucket changes; the page's text is not modelled.
- Express's path matching is the input `validateRoute`; a request passed on to any other route gets no reply from the chain (Express's 404 and the `/health` route are not modelled). `api/health.js` and `app.listen` are left out too: they hold no logic of the core.
- RateLimit.Limiter: `toNumber` yields integers only, so a NaN, infinite or fractional `RATE_LIMIT_WINDOW_MS` or `RATE_LIMIT_MAX` is not modelled. Under a NaN maximum the source never denies (`count > NaN` is false), and under a NaN window a bucket never resets.
- Console output and exit codes of the tools are the `Outcome` datatypes. The printed JSON is the fields of `Issued`.
- Lockin.Units: Dafny characters are Unicode scalar values, so a string holding a lone surrogate, which JavaScript allows, cannot be written.
