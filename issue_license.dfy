/** The command-line tool that issues a license into the local store
    (`server/tools/issue-license.js`): read the flags, draw up to ten
    candidate keys until one is not taken, insert it. The console output
    and the exit code are the `Outcome`. */
module IssueLicense {
  import opened Options
  import opened LicenseStore
  import opened KeyGen

  /** Usage error (exit code 1, nothing written), ten taken candidates
      (the thrown error, exit code 1, nothing written), or the issued
      license as printed. */
  datatype Outcome =
    | Usage
    | NoUniqueKey
    | Issued(license: string, status: string, email: string, domain: Option<string>)

  /** A run of the tool on a table, as the new table and the outcome. */
  function Issue(rows: Table, argv: seq<string>, random: nat -> Draw, ts: string): (Table, Outcome) {
    var email := GetArg(argv, "--email");
    var status := StatusArg(argv);
    var domain := GetArg(argv, "--domain");
    if !Truthy(email) then (rows, Usage)
    else match FirstFree(rows, random, 0)
      case None => (rows, NoUniqueKey)
      case Some(i) =>
        var license := Candidate(random, i);
        var (rows', _) := InsertRow(rows, license, status, email, OrNull(domain), ts);
        (rows', Issued(license, status, email.value, OrNull(domain)))
  }

  /** `main()` against a store. */
  method Run(store: Store, argv: seq<string>, random: nat -> Draw, ts: string) returns (out: Outcome)
    modifies store
    ensures (store.rows, out) == Issue(old(store.rows), argv, random, ts)
  {
    var email := GetArg(argv, "--email");
    var status := StatusArg(argv);
    var domain := GetArg(argv, "--domain");
    if !Truthy(email) {
      return Usage;
    }
    var license: Option<string> := None;
    var i := 0;
    while i < MAX_TRIES && license.None?
      invariant 0 <= i <= MAX_TRIES
      invariant store.rows == old(store.rows)
      invariant license.None? ==> FirstFree(store.rows, random, 0) == FirstFree(store.rows, random, i)
      invariant license.Some? ==> 0 < i && FirstFree(store.rows, random, 0) == Some(i - 1)
                                  && license.value == Candidate(random, i - 1)
    {
      var candidate := RandomKey(random, 8 * i);
      var found := store.Get(candidate);
      if found.None? {
        license := Some(candidate);
      }
      i := i + 1;
    }
    if license.None? {
      return NoUniqueKey;
    }
    var _ := store.Insert(license.value, status, email, OrNull(domain), ts);
    out := Issued(license.value, status, email.value, OrNull(domain));
  }

  /** Without a usable --email the tool stops before touching the store,
      and only then. */
  lemma UsageIffNoEmail(rows: Table, argv: seq<string>, random: nat -> Draw, ts: string)
    ensures Issue(rows, argv, random, ts).1 == Usage <==> GetArg(argv, "--email").None?
    ensures Issue(rows, argv, random, ts).1 == Usage ==> Issue(rows, argv, random, ts).0 == rows
  {
  }

  /** The tool gives up only when all ten candidates are taken, and then
      writes nothing. */
  lemma NoUniqueKeyIffAllTaken(rows: Table, argv: seq<string>, random: nat -> Draw, ts: string)
    requires GetArg(argv, "--email").Some?
    ensures Issue(rows, argv, random, ts).1 == NoUniqueKey <==>
            forall i :: 0 <= i < MAX_TRIES ==> Candidate(random, i) in rows
    ensures Issue(rows, argv, random, ts).1 == NoUniqueKey ==> Issue(rows, argv, random, ts).0 == rows
  {
    var f := FirstFree(rows, random, 0);
    if f.Some? {
      assert Candidate(random, f.value) !in rows;
    }
  }

  /** An issued license is the first untaken of the candidates, has the
      LIC-XXXX-XXXX form, and is stored as a new row with the upper-cased
      status, the email, the domain or NULL, and equal timestamps; the rest
      of the table is unchanged. */
  lemma IssuedIsFirstFreeCandidate(rows: Table, argv: seq<string>, random: nat -> Draw, ts: string)
    ensures var (rows', out) := Issue(rows, argv, random, ts);
            out.Issued? ==>
              && (exists i :: 0 <= i < MAX_TRIES && out.license == Candidate(random, i)
                             && forall j :: 0 <= j < i ==> Candidate(random, j) in rows)
              && out.license !in rows
              && IsLicenseKey(out.license)
              && Some(out.email) == GetArg(argv, "--email")
              && out.status == StatusArg(argv)
              && out.domain == GetArg(argv, "--domain")
              && rows' == rows[out.license := Row(out.status, Some(out.email), out.domain, ts, ts)]
  {
    var (rows', out) := Issue(rows, argv, random, ts);
    if out.Issued? {
      var i := FirstFree(rows, random, 0).value;
      KeyAtIsLicenseKey(random, 8 * i);
    }
  }

  /** What the tool printed is what the store now returns for that key. */
  lemma IssuedRoundTrip(rows: Table, argv: seq<string>, random: nat -> Draw, ts: string)
    ensures var (rows', out) := Issue(rows, argv, random, ts);
            out.Issued? ==> Find(rows', out.license) == Some(Record(out.license, out.status, Some(out.email), out.domain))
  {
  }

  /** Issuing never changes or removes a row that was there. */
  lemma IssueKeepsRows(rows: Table, argv: seq<string>, random: nat -> Draw, ts: string)
    ensures var (rows', _) := Issue(rows, argv, random, ts);
            forall k :: k in rows ==> k in rows' && rows'[k] == rows[k]
  {
    var (rows', out) := Issue(rows, argv, random, ts);
    if out.Issued? {
      assert FirstFree(rows, random, 0).Some?;
    }
  }
}
