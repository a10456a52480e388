/** The Postgres variant of the issuing tool (`tools/issue-license-pg.js`):
    the same flags and key draws, a check that `DATABASE_URL` is set, then
    the schema statement, up to ten existence queries and the insert, any
    of which may throw. Which query throws is the input `failAt`: query 0
    is the schema statement, query k the k-th existence check, and the
    insert comes after the checks that were made. */
module IssueLicensePg {
  import opened Options
  import opened Env
  import opened LicenseStore
  import opened KeyGen
  import IssueLicense

  /** Usage error and missing `DATABASE_URL` exit with code 1 before any
      query; a thrown query or ten taken candidates reject `main()` (exit
      code 1); otherwise the license is issued. */
  datatype Outcome =
    | Usage
    | MissingDatabaseUrl
    | QueryFailed
    | NoUniqueKey
    | Issued(license: string, status: string, email: string, domain: Option<string>)

  /** Whether query number q throws. */
  predicate Throws(failAt: Option<nat>, q: nat) {
    failAt == Some(q)
  }

  /** How the existence checks end: a query threw, all ten candidates were
      taken, or candidate i is free. */
  datatype Search = Fault | Exhausted | FreeAt(i: nat)

  /** The existence checks: query k + 1 looks up candidate k, and the first
      free candidate ends them. */
  function SearchResult(rows: Table, random: nat -> Draw, failAt: Option<nat>): Search {
    match FirstFree(rows, random, 0)
    case None => if failAt.Some? && 1 <= failAt.value <= MAX_TRIES then Fault else Exhausted
    case Some(i) => if failAt.Some? && 1 <= failAt.value <= i + 1 then Fault else FreeAt(i)
  }

  /** A run of the tool, as the new table and the outcome. */
  function Issue(env: Environment, rows: Table, argv: seq<string>, random: nat -> Draw,
                 failAt: Option<nat>, ts: string): (Table, Outcome)
  {
    var email := GetArg(argv, "--email");
    if !Truthy(email) then (rows, Usage)
    else if !Truthy(Lookup(env, "DATABASE_URL")) then (rows, MissingDatabaseUrl)
    else RunQueries(rows, random, failAt, StatusArg(argv), email.value, OrNull(GetArg(argv, "--domain")), ts)
  }

  /** The queries of a run whose flags and configuration were accepted: the
      schema statement, the existence checks, then the insert. */
  function RunQueries(rows: Table, random: nat -> Draw, failAt: Option<nat>,
                      status: string, email: string, domain: Option<string>, ts: string): (Table, Outcome)
  {
    if Throws(failAt, 0) then (rows, QueryFailed)
    else match SearchResult(rows, random, failAt)
      case Fault => (rows, QueryFailed)
      case Exhausted => (rows, NoUniqueKey)
      case FreeAt(i) =>
        if Throws(failAt, i + 2) then (rows, QueryFailed)
        else
          var license := Candidate(random, i);
          var (rows', inserted) := InsertRow(rows, license, status, Some(email), domain, ts);
          if inserted.InsertFailed? then (rows, QueryFailed)
          else (rows', Issued(license, status, email, domain))
  }

  /** The loop of `main()` that draws candidates and asks whether each is
      taken, stopping at the first free one or the first thrown query. */
  method Lookups(store: Store, random: nat -> Draw, failAt: Option<nat>) returns (r: Search)
    ensures r == SearchResult(store.rows, random, failAt)
  {
    var i := 0;
    while i < MAX_TRIES
      invariant 0 <= i <= MAX_TRIES
      invariant failAt.None? || failAt.value == 0 || failAt.value > i
      invariant FirstFree(store.rows, random, 0) == FirstFree(store.rows, random, i)
    {
      var candidate := RandomKey(random, 8 * i);
      if Throws(failAt, i + 1) {
        return Fault;
      }
      var found := store.Get(candidate);
      if found.None? {
        return FreeAt(i);
      }
      i := i + 1;
    }
    return Exhausted;
  }

  /** `main()` against the database, modelled as a store. */
  method Run(store: Store, env: Environment, argv: seq<string>, random: nat -> Draw,
              failAt: Option<nat>, ts: string) returns (out: Outcome)
    modifies store
    ensures (store.rows, out) == Issue(env, old(store.rows), argv, random, failAt, ts)
  {
    var email := GetArg(argv, "--email");
    var status := StatusArg(argv);
    var domain := GetArg(argv, "--domain");
    if !Truthy(email) {
      return Usage;
    }
    if !Truthy(Lookup(env, "DATABASE_URL")) {
      return MissingDatabaseUrl;
    }
    out := Queries(store, random, failAt, status, email.value, OrNull(domain), ts);
  }

  /** The schema statement, the existence checks and the insert. */
  method Queries(store: Store, random: nat -> Draw, failAt: Option<nat>,
                 status: string, email: string, domain: Option<string>, ts: string) returns (out: Outcome)
    modifies store
    ensures (store.rows, out) == RunQueries(old(store.rows), random, failAt, status, email, domain, ts)
  {
    if Throws(failAt, 0) {
      return QueryFailed;
    }
    var search := Lookups(store, random, failAt);
    if search.Fault? {
      return QueryFailed;
    }
    if search.Exhausted? {
      return NoUniqueKey;
    }
    if Throws(failAt, search.i + 2) {
      return QueryFailed;
    }
    var license := RandomKey(random, 8 * search.i);
    var inserted := store.Insert(license, status, Some(email), domain, ts);
    if inserted.InsertFailed? {
      return QueryFailed;
    }
    out := Issued(license, status, email, domain);
  }

  /** The flags are checked before the configuration, and the configuration
      before any query: neither failure writes. */
  lemma ChecksBeforeQueries(env: Environment, rows: Table, argv: seq<string>, random: nat -> Draw,
                            failAt: Option<nat>, ts: string)
    ensures var (rows', out) := Issue(env, rows, argv, random, failAt, ts);
            && (out == Usage <==> GetArg(argv, "--email").None?)
            && (out == MissingDatabaseUrl <==>
                  GetArg(argv, "--email").Some? && !Truthy(Lookup(env, "DATABASE_URL")))
            && (out.Usage? || out.MissingDatabaseUrl? || out.QueryFailed? || out.NoUniqueKey? ==> rows' == rows)
  {
    var email := GetArg(argv, "--email");
    if Truthy(email) && Truthy(Lookup(env, "DATABASE_URL")) {
      QueriesOutcomes(rows, random, failAt, StatusArg(argv), email.value, OrNull(GetArg(argv, "--domain")), ts);
    }
  }

  /** The queries end in a failure that writes nothing, or in a license
      issued for the given flags. */
  lemma QueriesOutcomes(rows: Table, random: nat -> Draw, failAt: Option<nat>, status: string, email: string,
                        domain: Option<string>, ts: string)
    ensures var (rows', out) := RunQueries(rows, random, failAt, status, email, domain, ts);
            && (out.QueryFailed? || out.NoUniqueKey? || out.Issued?)
            && (out.QueryFailed? || out.NoUniqueKey? ==> rows' == rows)
            && (out.Issued? ==> out.status == status && out.email == email && out.domain == domain)
  {
  }

  /** Without faults the Postgres tool does what the local one does: the
      same failures, the same key, the same new row. */
  lemma AgreesWithLocalTool(env: Environment, rows: Table, argv: seq<string>, random: nat -> Draw, ts: string)
    requires Truthy(Lookup(env, "DATABASE_URL"))
    ensures var (rowsPg, outPg) := Issue(env, rows, argv, random, None, ts);
            var (rowsLocal, outLocal) := IssueLicense.Issue(rows, argv, random, ts);
            && rowsPg == rowsLocal
            && (outLocal == IssueLicense.Usage <==> outPg == Usage)
            && (outLocal == IssueLicense.NoUniqueKey <==> outPg == NoUniqueKey)
            && (outLocal.Issued? <==> outPg.Issued?)
            && (outPg.Issued? ==> outPg.license == outLocal.license && outPg.status == outLocal.status
                                  && outPg.email == outLocal.email && outPg.domain == outLocal.domain)
  {
    var email := GetArg(argv, "--email");
    if Truthy(email) {
      FaultFreeQueries(rows, random, StatusArg(argv), email.value, OrNull(GetArg(argv, "--domain")), ts);
    }
  }

  /** Without faults the queries insert the first free candidate, or write
      nothing when all ten are taken. */
  lemma FaultFreeQueries(rows: Table, random: nat -> Draw, status: string, email: string,
                         domain: Option<string>, ts: string)
    ensures var (rows', out) := RunQueries(rows, random, None, status, email, domain, ts);
            match FirstFree(rows, random, 0)
            case None => rows' == rows && out == NoUniqueKey
            case Some(i) =>
              && rows' == InsertRow(rows, Candidate(random, i), status, Some(email), domain, ts).0
              && out == Issued(Candidate(random, i), status, email, domain)
  {
    var f := FirstFree(rows, random, 0);
    if f.Some? {
      assert Candidate(random, f.value) !in rows;
    }
  }

  /** A query that throws before the insert leaves the table as it was, and
      a thrown error is reported whichever query it was, as long as the run
      reached it. */
  lemma FailedQueryWritesNothing(env: Environment, rows: Table, argv: seq<string>, random: nat -> Draw,
                                 q: nat, ts: string)
    requires Truthy(GetArg(argv, "--email")) && Truthy(Lookup(env, "DATABASE_URL"))
    requires q == 0 || (FirstFree(rows, random, 0).None? && q <= MAX_TRIES)
             || (FirstFree(rows, random, 0).Some? && q <= FirstFree(rows, random, 0).value + 2)
    ensures Issue(env, rows, argv, random, Some(q), ts) == (rows, QueryFailed)
  {
    var email := GetArg(argv, "--email");
    FailedQueryQueries(rows, random, q, StatusArg(argv), email.value, OrNull(GetArg(argv, "--domain")), ts);
  }

  /** The same for the queries alone. */
  lemma FailedQueryQueries(rows: Table, random: nat -> Draw, q: nat, status: string, email: string,
                           domain: Option<string>, ts: string)
    requires q == 0 || (FirstFree(rows, random, 0).None? && q <= MAX_TRIES)
             || (FirstFree(rows, random, 0).Some? && q <= FirstFree(rows, random, 0).value + 2)
    ensures RunQueries(rows, random, Some(q), status, email, domain, ts) == (rows, QueryFailed)
  {
  }

  /** A fault after the last query the run makes changes nothing. */
  lemma LateFaultIsHarmless(env: Environment, rows: Table, argv: seq<string>, random: nat -> Draw,
                            q: nat, ts: string)
    requires FirstFree(rows, random, 0).None? ==> q > MAX_TRIES
    requires FirstFree(rows, random, 0).Some? ==> q > FirstFree(rows, random, 0).value + 2
    ensures Issue(env, rows, argv, random, Some(q), ts) == Issue(env, rows, argv, random, None, ts)
  {
    var email := GetArg(argv, "--email");
    if Truthy(email) {
      LateFaultQueries(rows, random, q, StatusArg(argv), email.value, OrNull(GetArg(argv, "--domain")), ts);
    }
  }

  /** The same for the queries alone. */
  lemma LateFaultQueries(rows: Table, random: nat -> Draw, q: nat, status: string, email: string,
                         domain: Option<string>, ts: string)
    requires FirstFree(rows, random, 0).None? ==> q > MAX_TRIES
    requires FirstFree(rows, random, 0).Some? ==> q > FirstFree(rows, random, 0).value + 2
    ensures RunQueries(rows, random, Some(q), status, email, domain, ts)
            == RunQueries(rows, random, None, status, email, domain, ts)
  {
  }
}
