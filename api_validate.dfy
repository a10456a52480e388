/** The serverless validation endpoint (`api/v1/validate.js`): method
    checks, the rate limiter, the memoised schema bootstrap, the input
    checks, the lookup and the conditional bind against Postgres. The
    database is the license table model; whether a query throws is an input
    (`Faults`), since the engine is not modelled. */
module ApiValidate {
  import opened Options
  import opened Http
  import opened Env
  import DbUrl
  import opened LicenseStore
  import opened RateLimit
  import opened Protocol

  /** The parts of a request the handler reads. `licenseField` is the body's
      `license` string when the body parses and holds one. */
  datatype Request = Request(verb: string, forwardedFor: Option<string>, remoteAddress: Option<string>,
                             origin: Option<string>, licenseField: Option<string>)

  /** An error thrown while preparing the schema: its `code`, if any, and its message. */
  datatype SchemaError = SchemaError(code: Option<string>, message: string)

  /** The memoised schema promise: not yet created, resolved, or rejected. */
  datatype Schema = NotStarted | Ready | Failed(error: SchemaError)

  /** Which database calls of this request throw: the schema statement (only
      run on the first request), the lookup and the update. */
  datatype Faults = Faults(ddl: Option<SchemaError>, select: bool, update: bool)

  const MISSING_DATABASE_URL := "MISSING_DATABASE_URL"
  const MISSING_CONFIG_MESSAGE :=
    "Missing database configuration. Set DATABASE_URL or connect Vercel Postgres (POSTGRES_URL)."

  const NO_CONTENT: Response := Response(204, NoBody)
  const METHOD_NOT_ALLOWED: Response := Fail(405, "METHOD_NOT_ALLOWED", "Method not allowed")
  const QUERY_FAILED: Response := Fail(500, "DB_ERROR", "Database query failed")
  const UPDATE_FAILED: Response := Fail(500, "DB_ERROR", "Database update failed")

  /** What the first `ensureSchema()` settles to: rejected with
      MISSING_DATABASE_URL when no connection string resolves, rejected
      with the statement's error when it throws, resolved otherwise. */
  function FirstSchema(env: Environment, encode: string -> string, ddl: Option<SchemaError>): Schema {
    if DbUrl.ResolveDatabaseUrl(env, encode).None? then
      Failed(SchemaError(Some(MISSING_DATABASE_URL), MISSING_CONFIG_MESSAGE))
    else if ddl.Some? then Failed(ddl.value)
    else Ready
  }

  /** The 500 reply for a rejected schema: the error's code (DB_ERROR when it
      has none); the error's own message only for a missing configuration,
      so no other database error leaks its text to the client. */
  function SchemaFailure(e: SchemaError): (r: Response)
    ensures r.status == 500 && r.body.Failure?
    // a code the error carries is passed on, and any code but DB_ERROR is the error's own
    ensures e.code.Some? && e.code.value != "" ==> r.body.code == e.code.value
    ensures r.body.code != "DB_ERROR" ==> e.code == Some(r.body.code)
    // the message is the generic one unless the configuration is missing
    ensures r.body.message != "Backend database is not configured" ==>
              e.code == Some(MISSING_DATABASE_URL) && r.body.message == e.message
    ensures e.code == Some(MISSING_DATABASE_URL) && e.message != "" ==> r.body.message == e.message
  {
    var code := if e.code.Some? && e.code.value != "" then e.code.value else "DB_ERROR";
    var message := if code == MISSING_DATABASE_URL && e.message != "" then e.message
                   else "Backend database is not configured";
    Fail(500, code, message)
  }

  /** `parseBool(getEnv("AUTO_BIND_DOMAIN", "true"), true)`, read on every request. */
  function AutoBind(env: Environment): bool {
    ParseBool(Some(GetEnv(env, "AUTO_BIND_DOMAIN", "true")), true)
  }

  /** The reply after the conditional update: 200 with `bound` saying whether
      the update changed a row. */
  function BindReply(license: string, host: string, changed: bool): Response {
    Response(200, Success(license, host, changed))
  }

  /** The state the handler reads and writes between requests. */
  datatype State = State(buckets: Buckets, rows: Table, schema: Schema)

  /** The ladder from the lookup on, against the record read and the table
      the update runs on (the same table when calls are sequential). */
  function AfterLookup(license: string, host: string, record: Option<Record>, autoBind: bool,
                       rows: Table, updateFails: bool, ts: string): (Response, Table)
  {
    match Decide(license, host, record, autoBind)
    case Reply(r) => (r, rows)
    case BindThenReply =>
      if updateFails then (UPDATE_FAILED, rows)
      else
        var (rows', changed) := BindRow(rows, license, host, ts);
        (BindReply(license, host, changed), rows')
  }

  /** One request handled from state `s`. */
  function Handle(s: State, env: Environment, encode: string -> string, windowMs: int, max: int,
                  req: Request, faults: Faults, hostOf: string -> Option<string>,
                  now: int, ts: string): (State, Response)
  {
    if req.verb == "OPTIONS" then (s, NO_CONTENT)
    else if req.verb != "POST" then (s, METHOD_NOT_ALLOWED)
    else
      var (buckets, allowed) := Hit(s.buckets, ClientIp(req.forwardedFor, req.remoteAddress), now, windowMs, max);
      var s1 := s.(buckets := buckets);
      if !allowed then (s1, RATE_LIMITED)
      else
        var schema := if s.schema.NotStarted? then FirstSchema(env, encode, faults.ddl) else s.schema;
        var s2 := s1.(schema := schema);
        if schema.Failed? then (s2, SchemaFailure(schema.error))
        else match CheckInput(req.licenseField, req.origin, hostOf)
          case Rejected(r) => (s2, r)
          case Checked(license, host) =>
            if faults.select then (s2, QUERY_FAILED)
            else
              var (r, rows) := AfterLookup(license, host, Find(s.rows, license), AutoBind(env),
                                           s.rows, faults.update, ts);
              (s2.(rows := rows), r)
  }

  /** The module-level state of the function: its environment, its rate
      limiter, the database and the memoised schema promise. */
  class Endpoint {
    const env: Environment
    const encode: string -> string
    const limiter: Limiter
    const store: Store
    var schema: Schema

    /** Loading the module: the limiter takes its window and maximum from
        RATE_LIMIT_WINDOW_MS (default "60000") and RATE_LIMIT_MAX (default
        "120"), converted by `toNumber` (JavaScript's `Number`). */
    constructor (env: Environment, encode: string -> string, toNumber: string -> int, store: Store)
      ensures this.env == env && this.encode == encode && this.store == store && schema == NotStarted
      ensures fresh(limiter) && limiter.buckets == map[]
      ensures limiter.windowMs == toNumber(GetEnv(env, "RATE_LIMIT_WINDOW_MS", "60000"))
      ensures limiter.max == toNumber(GetEnv(env, "RATE_LIMIT_MAX", "120"))
    {
      this.env := env;
      this.encode := encode;
      this.store := store;
      limiter := new Limiter(toNumber(GetEnv(env, "RATE_LIMIT_WINDOW_MS", "60000")),
                             toNumber(GetEnv(env, "RATE_LIMIT_MAX", "120")));
      schema := NotStarted;
    }

    /** The exported handler, run to completion. */
    method HandleRequest(req: Request, faults: Faults, hostOf: string -> Option<string>, now: int, ts: string)
      returns (resp: Response)
      modifies this, limiter, store
      ensures (State(limiter.buckets, store.rows, schema), resp) ==
        Handle(old(State(limiter.buckets, store.rows, schema)), env, encode, limiter.windowMs, limiter.max,
               req, faults, hostOf, now, ts)
    {
      if req.verb == "OPTIONS" {
        return NO_CONTENT;
      }
      if req.verb != "POST" {
        return METHOD_NOT_ALLOWED;
      }
      var rl := limiter.RateLimit(req.forwardedFor, req.remoteAddress, now);
      if rl.Reject? {
        return rl.response;
      }
      if schema.NotStarted? {
        schema := FirstSchema(env, encode, faults.ddl);
      }
      if schema.Failed? {
        return SchemaFailure(schema.error);
      }
      var input := CheckInput(req.licenseField, req.origin, hostOf);
      if input.Rejected? {
        return input.response;
      }
      var license, host := input.license, input.host;
      var autoBind := AutoBind(env);
      if faults.select {
        return QUERY_FAILED;
      }
      resp := LookupAndBind(license, host, autoBind, faults.update, ts);
    }

    /** The handler from the `SELECT` on: read the row, then answer or run the
        conditional bind. */
    method LookupAndBind(license: string, host: string, autoBind: bool, updateFails: bool, ts: string)
      returns (resp: Response)
      modifies store
      ensures (resp, store.rows) == AfterLookup(license, host, Find(old(store.rows), license), autoBind,
                                                old(store.rows), updateFails, ts)
    {
      var record := store.Get(license);
      var decision := Decide(license, host, record, autoBind);
      if decision.Reply? {
        return decision.response;
      }
      if updateFails {
        return UPDATE_FAILED;
      }
      var changed := store.BindIfEmpty(license, host, ts);
      resp := BindReply(license, host, changed);
    }
  }

  // ---- Properties ----

  /** Preflight and wrong methods are answered before the limiter, the
      schema or the database are touched. */
  lemma MethodChecksComeFirst(s: State, env: Environment, encode: string -> string, windowMs: int, max: int,
                              req: Request, faults: Faults, hostOf: string -> Option<string>, now: int, ts: string)
    requires req.verb != "POST"
    ensures Handle(s, env, encode, windowMs, max, req, faults, hostOf, now, ts) ==
      (s, if req.verb == "OPTIONS" then Response(204, NoBody) else Fail(405, "METHOD_NOT_ALLOWED", "Method not allowed"))
  {
  }

  /** A rate-limit denial ends the request with 429 RATE_LIMITED: only the
      bucket of the caller changes, and neither the schema nor the table. */
  lemma RateLimitStopsEverything(s: State, env: Environment, encode: string -> string, windowMs: int, max: int,
                                 req: Request, faults: Faults, hostOf: string -> Option<string>, now: int, ts: string)
    requires req.verb == "POST"
    requires !Hit(s.buckets, ClientIp(req.forwardedFor, req.remoteAddress), now, windowMs, max).1
    ensures var (s', r) := Handle(s, env, encode, windowMs, max, req, faults, hostOf, now, ts);
      && r == Fail(429, "RATE_LIMITED", "Too many requests")
      && s'.rows == s.rows && s'.schema == s.schema
  {
  }

  /** A rejected schema promise is kept: every later admitted POST gets the
      same 500 reply, and the table is never read or written. */
  lemma RejectedSchemaIsSticky(s: State, env: Environment, encode: string -> string, windowMs: int, max: int,
                               req: Request, faults: Faults, hostOf: string -> Option<string>, now: int, ts: string)
    requires s.schema.Failed? && req.verb == "POST"
    requires Hit(s.buckets, ClientIp(req.forwardedFor, req.remoteAddress), now, windowMs, max).1
    ensures var (s', r) := Handle(s, env, encode, windowMs, max, req, faults, hostOf, now, ts);
      && r == SchemaFailure(s.schema.error) && r.status == 500
      && s'.rows == s.rows && s'.schema == s.schema
  {
  }

  /** Without any resolvable connection string the first admitted POST gets
      500 MISSING_DATABASE_URL with the configuration message. */
  lemma MissingConfigurationReported(s: State, env: Environment, encode: string -> string, windowMs: int, max: int,
                                     req: Request, faults: Faults, hostOf: string -> Option<string>, now: int, ts: string)
    requires s.schema.NotStarted? && req.verb == "POST"
    requires Hit(s.buckets, ClientIp(req.forwardedFor, req.remoteAddress), now, windowMs, max).1
    requires DbUrl.ResolveDatabaseUrl(env, encode).None?
    ensures Handle(s, env, encode, windowMs, max, req, faults, hostOf, now, ts).1 ==
      Fail(500, MISSING_DATABASE_URL, MISSING_CONFIG_MESSAGE)
  {
  }

  /** Nothing but the conditional update writes the table: every reply other
      than an auto-bind 200 leaves the table as it was. */
  lemma OnlyAutoBindWrites(s: State, env: Environment, encode: string -> string, windowMs: int, max: int,
                           req: Request, faults: Faults, hostOf: string -> Option<string>, now: int, ts: string)
    ensures var (s', r) := Handle(s, env, encode, windowMs, max, req, faults, hostOf, now, ts);
      s'.rows != s.rows ==>
        && req.verb == "POST" && r.status == 200 && r.body.Success? && r.body.bound
        && exists license, host :: s'.rows == BindRow(s.rows, license, host, ts).0
  {
    var (s', r) := Handle(s, env, encode, windowMs, max, req, faults, hostOf, now, ts);
    if s'.rows != s.rows {
      var c := CheckInput(req.licenseField, req.origin, hostOf);
      assert c.Checked?;
      AfterLookupWrites(c.license, c.host, Find(s.rows, c.license), AutoBind(env), s.rows, faults.update, ts);
    }
  }

  /** The ladder after the lookup writes only through a bind that changed a
      row, and then replies 200 with `bound: true`. */
  lemma AfterLookupWrites(license: string, host: string, record: Option<Record>, autoBind: bool,
                          rows: Table, updateFails: bool, ts: string)
    ensures var (r, rows') := AfterLookup(license, host, record, autoBind, rows, updateFails, ts);
      rows' != rows ==>
        && Decide(license, host, record, autoBind) == BindThenReply && !updateFails
        && rows' == BindRow(rows, license, host, ts).0
        && r == BindReply(license, host, true)
  {
  }

  /** An auto-bind request on an active, unbound license whose update runs
      on the table just read: 200, newly bound to the requesting host. */
  lemma AutoBindSequential(license: string, host: string, rows: Table, ts: string)
    requires license in rows && IsActive(rows[license].status) && Unbound(rows[license].boundDomain)
    ensures var (r, rows') := AfterLookup(license, host, Find(rows, license), true, rows, false, ts);
      && r == Response(200, Success(license, host, true))
      && rows'[license].boundDomain == Some(host)
  {
  }

  /** As written, a request that read the license unbound but whose update
      finds it already bound elsewhere (it lost a race) still gets
      `ok: true` with its own host, `bound: false`, and the table keeps the
      winner's domain. */
  lemma RaceLoserStillSucceeds(license: string, host: string, read: Record, rows: Table, ts: string)
    requires IsActive(read.status) && Unbound(read.boundDomain)
    requires license in rows && !Unbound(rows[license].boundDomain)
    ensures AfterLookup(license, host, Some(read), true, rows, false, ts) ==
      (Response(200, Success(license, host, false)), rows)
  {
  }
}
