/** The long-running server (`server/src/index.js`): the preflight
    middleware, the rate-limit middleware and the `/v1/validate` route over
    the SQLite license store. */
module ServerApp {
  import opened Options
  import Text
  import opened Http
  import opened Env
  import opened LicenseStore
  import opened RateLimit
  import opened Protocol

  /** One request as the middleware chain sees it. `bodyError` is the status
      Express's JSON parser fails with (400 for a body that does not parse,
      413 for one over 32 kB), `None` when it accepts the body;
      `validateRoute` says whether Express's router matches the path to
      `/v1/validate`. */
  datatype Request = Request(verb: string, bodyError: Option<int>, validateRoute: bool,
                             forwardedFor: Option<string>, remoteAddress: Option<string>,
                             origin: Option<string>, licenseField: Option<string>)

  const NO_CONTENT: Response := Response(204, NoBody)

  /** The reply after `bindIfEmpty`: always `bound: true`, whatever the
      bind returned. */
  function BindReply(license: string, host: string): Response {
    Response(200, Success(license, host, true))
  }

  /** The route's ladder from the lookup on, against the record read and the
      table the bind runs on. */
  function AfterLookup(license: string, host: string, record: Option<Record>, autoBind: bool,
                       rows: Table, ts: string): (Response, Table)
  {
    match Decide(license, host, record, autoBind)
    case Reply(r) => (r, rows)
    case BindThenReply => (BindReply(license, host), BindRow(rows, license, host, ts).0)
  }

  /** The `/v1/validate` route handler. */
  function Validate(rows: Table, autoBind: bool, field: Option<string>, origin: Option<string>,
                    hostOf: string -> Option<string>, ts: string): (Response, Table)
  {
    match CheckInput(field, origin, hostOf)
    case Rejected(r) => (r, rows)
    case Checked(license, host) => AfterLookup(license, host, Find(rows, license), autoBind, rows, ts)
  }

  /** The middleware chain for one request: the limiter's buckets, the table
      and the reply; `None` when the request passes on to a route other than
      `POST /v1/validate`. The JSON parser runs first, so a refused body is
      answered before the preflight check and the limiter. */
  function Serve(buckets: Buckets, rows: Table, windowMs: int, max: int, autoBind: bool, req: Request,
                 hostOf: string -> Option<string>, now: int, ts: string): (Buckets, Table, Option<Response>)
  {
    if req.bodyError.Some? then (buckets, rows, Some(Response(req.bodyError.value, ErrorPage)))
    else if req.verb == "OPTIONS" then (buckets, rows, Some(NO_CONTENT))
    else
      var (b, allowed) := Hit(buckets, ClientIp(req.forwardedFor, req.remoteAddress), now, windowMs, max);
      if !allowed then (b, rows, Some(RATE_LIMITED))
      else if req.verb != "POST" || !req.validateRoute then (b, rows, None)
      else
        var (r, rows') := Validate(rows, autoBind, req.licenseField, req.origin, hostOf, ts);
        (b, rows', Some(r))
  }

  /** The application object: the limiter and store made at start-up and
      the auto-bind policy read once from AUTO_BIND_DOMAIN. */
  class App {
    const limiter: Limiter
    const store: Store
    const autoBind: bool

    constructor (env: Environment, toNumber: string -> int, store: Store)
      ensures this.store == store && fresh(limiter) && limiter.buckets == map[]
      ensures limiter.windowMs == toNumber(GetEnv(env, "RATE_LIMIT_WINDOW_MS", "60000"))
      ensures limiter.max == toNumber(GetEnv(env, "RATE_LIMIT_MAX", "120"))
      ensures autoBind == ParseBool(Some(GetEnv(env, "AUTO_BIND_DOMAIN", "true")), true)
    {
      limiter := new Limiter(toNumber(GetEnv(env, "RATE_LIMIT_WINDOW_MS", "60000")),
                             toNumber(GetEnv(env, "RATE_LIMIT_MAX", "120")));
      this.store := store;
      autoBind := ParseBool(Some(GetEnv(env, "AUTO_BIND_DOMAIN", "true")), true);
    }

    method HandleRequest(req: Request, hostOf: string -> Option<string>, now: int, ts: string)
      returns (resp: Option<Response>)
      modifies limiter, store
      ensures (limiter.buckets, store.rows, resp) ==
        Serve(old(limiter.buckets), old(store.rows), limiter.windowMs, limiter.max, autoBind, req, hostOf, now, ts)
    {
      if req.bodyError.Some? {
        return Some(Response(req.bodyError.value, ErrorPage));
      }
      if req.verb == "OPTIONS" {
        return Some(NO_CONTENT);
      }
      var rl := limiter.RateLimit(req.forwardedFor, req.remoteAddress, now);
      if rl.Reject? {
        return Some(rl.response);
      }
      if req.verb != "POST" || !req.validateRoute {
        return None;
      }
      var input := CheckInput(req.licenseField, req.origin, hostOf);
      if input.Rejected? {
        return Some(input.response);
      }
      var license, host := input.license, input.host;
      var record := store.Get(license);
      var decision := Decide(license, host, record, autoBind);
      if decision.Reply? {
        return Some(decision.response);
      }
      var _ := store.BindIfEmpty(license, host, ts);
      return Some(BindReply(license, host));
    }
  }

  // ---- Properties ----

  /** A body the JSON parser refuses is answered with the parser's status
      before any other middleware: no bucket and no row changes, and the
      reply is not JSON. */
  lemma BodyErrorsComeFirst(buckets: Buckets, rows: Table, windowMs: int, max: int, autoBind: bool,
                            req: Request, hostOf: string -> Option<string>, now: int, ts: string)
    requires req.bodyError.Some?
    ensures var (b', rows', r) := Serve(buckets, rows, windowMs, max, autoBind, req, hostOf, now, ts);
      && b' == buckets && rows' == rows
      && r.Some? && r.value.status == req.bodyError.value && !r.value.Ok() && !r.value.body.Failure?
  {
  }

  /** For a request whose body parsed and which is not a preflight, the
      limiter middleware passes it on exactly when the limiter allows it, and
      answers 429 RATE_LIMITED otherwise; the table is not touched on a
      denial, and a request passed on to any other route gets no reply from
      the chain and leaves the table alone. */
  lemma MiddlewareCallsNextIffAllowed(buckets: Buckets, rows: Table, windowMs: int, max: int, autoBind: bool,
                                      req: Request, hostOf: string -> Option<string>, now: int, ts: string)
    requires req.bodyError.None? && req.verb != "OPTIONS"
    ensures var (b, allowed) := Hit(buckets, ClientIp(req.forwardedFor, req.remoteAddress), now, windowMs, max);
      var (b', rows', r) := Serve(buckets, rows, windowMs, max, autoBind, req, hostOf, now, ts);
      && b' == b
      && (!allowed <==> r == Some(Fail(429, "RATE_LIMITED", "Too many requests")))
      && (!allowed ==> rows' == rows)
      && (allowed && !(req.verb == "POST" && req.validateRoute) ==> r.None? && rows' == rows)
  {
    if req.verb == "POST" && req.validateRoute {
      ValidateStatuses(rows, autoBind, req.licenseField, req.origin, hostOf, ts);
    }
  }

  /** The route answers 200, 400 or 403, never anything else. */
  lemma ValidateStatuses(rows: Table, autoBind: bool, field: Option<string>, origin: Option<string>,
                         hostOf: string -> Option<string>, ts: string)
    ensures Validate(rows, autoBind, field, origin, hostOf, ts).0.status in {200, 400, 403}
  {
    match CheckInput(field, origin, hostOf)
    case Rejected(_) =>
    case Checked(l, h) =>
  }

  /** Without auto-bind the route never writes the table. */
  lemma NoAutoBindNoWrite(rows: Table, field: Option<string>, origin: Option<string>,
                          hostOf: string -> Option<string>, ts: string)
    ensures Validate(rows, false, field, origin, hostOf, ts).1 == rows
  {
    var c := CheckInput(field, origin, hostOf);
    if c.Checked? {
      BindOnlyWhenUnbound(c.license, c.host, Find(rows, c.license), false);
    }
  }

  /** As written, the reply ignores what `bindIfEmpty` returned: a request
      that read the license unbound but whose bind finds it bound elsewhere
      still gets `ok: true, bound: true` with its own host, and the table
      keeps the other domain. */
  lemma RaceLoserReportsBound(license: string, host: string, read: Record, rows: Table, ts: string)
    requires IsActive(read.status) && Unbound(read.boundDomain)
    requires license in rows && !Unbound(rows[license].boundDomain)
    ensures AfterLookup(license, host, Some(read), true, rows, ts) ==
      (Response(200, Success(license, host, true)), rows)
  {
  }

  /** The first auto-bind request from host `h` on an active, unbound
      license: 200 with `bound: true`, and the license is now bound to `h`. */
  lemma FirstRequestBinds(rows: Table, field: Option<string>, origin: Option<string>,
                          hostOf: string -> Option<string>, ts: string, license: string, h: string)
    requires CheckInput(field, origin, hostOf) == Checked(license, h)
    requires license in rows && IsActive(rows[license].status) && Unbound(rows[license].boundDomain)
    ensures var (r, rows') := Validate(rows, true, field, origin, hostOf, ts);
      && r == Response(200, Success(license, h, true))
      && license in rows' && rows'[license].boundDomain == Some(h)
      && rows'[license].status == rows[license].status
  {
  }

  /** One call of the route: the body's license field, the Origin header and
      the instant. */
  datatype Call = Call(field: Option<string>, origin: Option<string>, ts: string)

  /** A sequential run of route calls: the final table and the replies. */
  function ValidateRun(rows: Table, autoBind: bool, calls: seq<Call>,
                       hostOf: string -> Option<string>): (r: (Table, seq<Response>))
    ensures |r.1| == |calls|
    decreases |calls|
  {
    if calls == [] then (rows, [])
    else
      var (resp, rows1) := Validate(rows, autoBind, calls[0].field, calls[0].origin, hostOf, calls[0].ts);
      var (rowsN, rest) := ValidateRun(rows1, autoBind, calls[1..], hostOf);
      (rowsN, [resp] + rest)
  }

  /** Once an active license is bound to a non-empty host `h`, every later
      call for it, in any order and mixed with calls for other licenses,
      gets 200 when it comes from `h` and DOMAIN_MISMATCH from any other
      host, and the binding stays `h`. */
  lemma {:induction false} BoundLicenseIsStable(rows: Table, autoBind: bool, calls: seq<Call>,
                                                hostOf: string -> Option<string>, license: string, h: string)
    requires license in rows && IsActive(rows[license].status) && rows[license].boundDomain == Some(h) && h != ""
    ensures var (rowsN, replies) := ValidateRun(rows, autoBind, calls, hostOf);
      && license in rowsN && rowsN[license].boundDomain == Some(h)
      && forall i :: 0 <= i < |calls| ==> BoundReply(calls[i], replies[i], hostOf, license, h)
    decreases |calls|
  {
    if calls != [] {
      var (resp, rows1) := Validate(rows, autoBind, calls[0].field, calls[0].origin, hostOf, calls[0].ts);
      BoundCall(rows, autoBind, calls[0], hostOf, license, h);
      BoundLicenseIsStable(rows1, autoBind, calls[1..], hostOf, license, h);
      var (rowsN, rest) := ValidateRun(rows1, autoBind, calls[1..], hostOf);
      var replies := [resp] + rest;
      assert ValidateRun(rows, autoBind, calls, hostOf) == (rowsN, replies);
      forall i | 1 <= i < |calls| ensures calls[1..][i - 1] == calls[i] && replies[i] == rest[i - 1] { }
    }
  }

  /** The reply a call gets while `license` is bound to `h`: an input
      rejection as usual, and for `license` 200 from `h` and DOMAIN_MISMATCH
      from any other host. */
  predicate BoundReply(c: Call, reply: Response, hostOf: string -> Option<string>, license: string, h: string) {
    match CheckInput(c.field, c.origin, hostOf)
    case Checked(l, host) =>
      l == license ==> reply == (if host == h then Response(200, Success(license, host, true)) else DOMAIN_MISMATCH)
    case Rejected(r) => reply == r
  }

  /** One call against a license bound to `h`: the reply `BoundReply`
      describes, and the license's row unchanged. */
  lemma BoundCall(rows: Table, autoBind: bool, c: Call, hostOf: string -> Option<string>, license: string, h: string)
    requires license in rows && IsActive(rows[license].status) && rows[license].boundDomain == Some(h) && h != ""
    ensures var (resp, rows1) := Validate(rows, autoBind, c.field, c.origin, hostOf, c.ts);
      license in rows1 && rows1[license] == rows[license] && BoundReply(c, resp, hostOf, license, h)
  {
    match CheckInput(c.field, c.origin, hostOf)
    case Rejected(_) =>
    case Checked(l, host) =>
      if l != license {
        BindChangesOnlyItsRow(rows, l, host, c.ts);
      }
  }

  /** Without auto-bind, every call for an active, unbound license is
      refused as not bound and the license stays unbound. */
  lemma {:induction false} NoAutoBindStaysUnbound(rows: Table, calls: seq<Call>,
                                                  hostOf: string -> Option<string>, license: string)
    requires license in rows && IsActive(rows[license].status) && Unbound(rows[license].boundDomain)
    ensures var (rowsN, replies) := ValidateRun(rows, false, calls, hostOf);
      && rowsN == rows
      && forall i :: 0 <= i < |calls| ==>
           match CheckInput(calls[i].field, calls[i].origin, hostOf)
           case Checked(l, _) => l == license ==> replies[i] == LICENSE_NOT_BOUND
           case Rejected(r) => replies[i] == r
    decreases |calls|
  {
    if calls != [] {
      NoAutoBindNoWrite(rows, calls[0].field, calls[0].origin, hostOf, calls[0].ts);
      NoAutoBindStaysUnbound(rows, calls[1..], hostOf, license);
      forall i | 1 <= i < |calls| ensures calls[1..][i - 1] == calls[i] { }
    }
  }

  /** The worked example: an unbound ACTIVE "LIC-AAAA-1111" validated from
      https://example.com with auto-bind on is bound to example.com; a
      second request from https://other.com gets 403 DOMAIN_MISMATCH. */
  lemma ExampleBindThenMismatch(rows: Table, hostOf: string -> Option<string>, ts1: string, ts2: string)
    requires "LIC-AAAA-1111" in rows && rows["LIC-AAAA-1111"].status == "ACTIVE"
    requires rows["LIC-AAAA-1111"].boundDomain == None
    requires hostOf("https://example.com") == Some("example.com")
    requires hostOf("https://other.com") == Some("other.com")
    ensures var (_, replies) := ValidateRun(rows, true, [Call(Some("LIC-AAAA-1111"), Some("https://example.com"), ts1),
                                                     Call(Some("LIC-AAAA-1111"), Some("https://other.com"), ts2)], hostOf);
      && replies[0] == Response(200, Success("LIC-AAAA-1111", "example.com", true))
      && replies[1] == Fail(403, "DOMAIN_MISMATCH", "License not valid for this domain")
  {
    var key := "LIC-AAAA-1111";
    Text.TrimUnpadded(key);
    assert IsActive("ACTIVE") by { StatusCaseExamples(); }
    var c1 := Call(Some(key), Some("https://example.com"), ts1);
    var c2 := Call(Some(key), Some("https://other.com"), ts2);
    assert CheckInput(c1.field, c1.origin, hostOf) == Checked(key, "example.com");
    assert CheckInput(c2.field, c2.origin, hostOf) == Checked(key, "other.com");
    FirstRequestBinds(rows, c1.field, c1.origin, hostOf, ts1, key, "example.com");
  }
}
