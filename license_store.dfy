/** The license table and its three operations: an exact-key lookup, an
    insert that fails on a duplicate key, and the conditional update that
    binds a license to its first domain. The table is a map from license key
    to row; the relational engine behind it is not modelled. */
module LicenseStore {
  import opened Options

  /** One row of the `licenses` table, without its key. */
  datatype Row = Row(status: string, email: Option<string>, boundDomain: Option<string>,
                     createdAt: string, updatedAt: string)

  /** What a lookup returns: the key and the four selected columns. */
  datatype Record = Record(license: string, status: string, email: Option<string>,
                           boundDomain: Option<string>)

  type Table = map<string, Row>

  datatype InsertError = DuplicateKey

  datatype InsertOutcome = Inserted(record: Record) | InsertFailed(error: InsertError)

  function RecordOf(key: string, row: Row): Record {
    Record(key, row.status, row.email, row.boundDomain)
  }

  /** The predicate of the conditional update: `bound_domain` is NULL or ''. */
  predicate Unbound(d: Option<string>) {
    d.None? || d == Some("")
  }

  /** `SELECT ... WHERE license = ?`. */
  function Find(t: Table, key: string): (r: Option<Record>)
    ensures r.Some? <==> key in t
    ensures r.Some? ==> r.value.license == key && r.value.status == t[key].status
                        && r.value.email == t[key].email && r.value.boundDomain == t[key].boundDomain
  {
    if key in t then Some(RecordOf(key, t[key])) else None
  }

  /** `insert`: a new row whose empty or missing email and domain become
      NULL and whose two timestamps are the same instant; a key already in
      the table violates the primary key and nothing is written. */
  function InsertRow(t: Table, license: string, status: string, email: Option<string>,
                  boundDomain: Option<string>, ts: string): (Table, InsertOutcome)
  {
    if license in t then (t, InsertFailed(DuplicateKey))
    else
      var row := Row(status, OrNull(email), OrNull(boundDomain), ts, ts);
      (t[license := row], Inserted(RecordOf(license, row)))
  }

  /** `bindIfEmpty`: the conditional update and whether it changed a row. */
  function BindRow(t: Table, key: string, domain: string, ts: string): (Table, bool) {
    if key in t && Unbound(t[key].boundDomain) then
      (t[key := t[key].(boundDomain := Some(domain), updatedAt := ts)], true)
    else (t, false)
  }

  /** The store object: a table updated in place. */
  class Store {
    var rows: Table

    constructor ()
      ensures rows == map[]
    {
      rows := map[];
    }

    constructor FromRows(rows0: Table)
      ensures rows == rows0
    {
      rows := rows0;
    }

    /** `get(licenseKey)`: the record stored under exactly that key, or
        absent; nothing changes. */
    method Get(key: string) returns (r: Option<Record>)
      ensures r.Some? <==> key in rows
      ensures r.Some? ==> r.value == RecordOf(key, rows[key])
    {
      r := if key in rows then Some(RecordOf(key, rows[key])) else None;
    }

    method Insert(license: string, status: string, email: Option<string>,
                  boundDomain: Option<string>, ts: string) returns (r: InsertOutcome)
      modifies this
      ensures (rows, r) == InsertRow(old(rows), license, status, email, boundDomain, ts)
    {
      if license in rows {
        r := InsertFailed(DuplicateKey);
      } else {
        var row := Row(status, OrNull(email), OrNull(boundDomain), ts, ts);
        rows := rows[license := row];
        r := Inserted(RecordOf(license, row));
      }
    }

    method BindIfEmpty(key: string, domain: string, ts: string) returns (changed: bool)
      modifies this
      ensures (rows, changed) == BindRow(old(rows), key, domain, ts)
    {
      changed := key in rows && Unbound(rows[key].boundDomain);
      if changed {
        rows := rows[key := rows[key].(boundDomain := Some(domain), updatedAt := ts)];
      }
    }
  }

  // ---- Properties of the three operations ----

  /** A successful insert is found again by its key with the status given and
      the normalised email and domain; its two timestamps agree. */
  lemma InsertThenLookup(t: Table, license: string, status: string, email: Option<string>,
                         boundDomain: Option<string>, ts: string)
    requires license !in t
    ensures var (t', out) := InsertRow(t, license, status, email, boundDomain, ts);
      && out.Inserted?
      && Find(t', license) == Some(out.record)
      && out.record == Record(license, status, if Truthy(email) then email else None,
                              if Truthy(boundDomain) then boundDomain else None)
      && t'[license].createdAt == t'[license].updatedAt == ts
      && t'.Keys == t.Keys + {license}
      && forall k :: k in t ==> t'[k] == t[k]
  {
  }

  /** Inserting an existing key fails and leaves the table as it was. */
  lemma InsertDuplicateFails(t: Table, license: string, status: string, email: Option<string>,
                             boundDomain: Option<string>, ts: string)
    requires license in t
    ensures InsertRow(t, license, status, email, boundDomain, ts) == (t, InsertFailed(DuplicateKey))
  {
  }

  /** The bind succeeds exactly when the row exists and is unbound; then the
      domain is written and `updated_at` refreshed, and nothing else of the
      row changes. */
  lemma BindSucceedsIffUnbound(t: Table, key: string, domain: string, ts: string)
    ensures var (t', changed) := BindRow(t, key, domain, ts);
      && (changed <==> key in t && Unbound(t[key].boundDomain))
      && (changed ==> t'[key] == Row(t[key].status, t[key].email, Some(domain), t[key].createdAt, ts))
      && (!changed ==> t' == t)
  {
  }

  /** The bind touches no other row and adds no row. */
  lemma BindChangesOnlyItsRow(t: Table, key: string, domain: string, ts: string)
    ensures var (t', _) := BindRow(t, key, domain, ts);
      && t'.Keys == t.Keys
      && (forall k :: k in t && k != key ==> t'[k] == t[k])
      && (key in t ==> t'[key].status == t[key].status && t'[key].email == t[key].email
                       && t'[key].createdAt == t[key].createdAt)
  {
  }

  // ---- First bind wins ----

  /** One `bindIfEmpty(key, domain)` call, with the instant it runs at. */
  datatype BindCall = BindCall(domain: string, ts: string)

  /** A sequential run of bind calls on one key: the final table and what
      each call returned. */
  function BindRun(t: Table, key: string, calls: seq<BindCall>): (r: (Table, seq<bool>))
    ensures |r.1| == |calls|
    decreases |calls|
  {
    if calls == [] then (t, [])
    else
      var (t1, changed) := BindRow(t, key, calls[0].domain, calls[0].ts);
      var (tn, rest) := BindRun(t1, key, calls[1..]);
      (tn, [changed] + rest)
  }

  /** Once a row holds a non-empty domain, no later bind changes anything. */
  lemma {:induction false} BoundRowIsFinal(t: Table, key: string, calls: seq<BindCall>)
    requires key in t && !Unbound(t[key].boundDomain)
    ensures BindRun(t, key, calls).0 == t
    ensures forall i :: 0 <= i < |calls| ==> !BindRun(t, key, calls).1[i]
    decreases |calls|
  {
    if calls != [] {
      BoundRowIsFinal(t, key, calls[1..]);
    }
  }

  /** On an unbound license, a run of binds whose first domain is non-empty:
      exactly the first call returns true, and the license ends up bound to
      that first domain. */
  lemma FirstBindWins(t: Table, key: string, calls: seq<BindCall>)
    requires key in t && Unbound(t[key].boundDomain)
    requires calls != [] && calls[0].domain != ""
    ensures var (tn, results) := BindRun(t, key, calls);
      && results[0]
      && (forall i :: 1 <= i < |calls| ==> !results[i])
      && key in tn && tn[key].boundDomain == Some(calls[0].domain)
      && tn[key].updatedAt == calls[0].ts
  {
    var (t1, _) := BindRow(t, key, calls[0].domain, calls[0].ts);
    BoundRowIsFinal(t1, key, calls[1..]);
  }

  /** As written, binding the empty domain succeeds but leaves the row
      unbound (the update writes ''), so the next bind wins as well. */
  lemma EmptyDomainBindsTwice(t: Table, key: string, d: string, ts1: string, ts2: string)
    requires key in t && Unbound(t[key].boundDomain)
    ensures var (_, results) := BindRun(t, key, [BindCall("", ts1), BindCall(d, ts2)]);
      results == [true, true]
  {
  }

  // ---- Any sequence of store writes ----

  datatype Write =
    | InsertWrite(license: string, status: string, email: Option<string>, boundDomain: Option<string>, ts: string)
    | BindWrite(key: string, domain: string, ts: string)

  function Apply(t: Table, w: Write): Table {
    match w
    case InsertWrite(l, s, e, b, ts) => InsertRow(t, l, s, e, b, ts).0
    case BindWrite(k, d, ts) => BindRow(t, k, d, ts).0
  }

  function ApplyAll(t: Table, ws: seq<Write>): Table
    decreases |ws|
  {
    if ws == [] then t else ApplyAll(Apply(t, ws[0]), ws[1..])
  }

  /** Over any sequence of inserts and binds, a row that exists stays, keeps
      its status and email, and a non-empty `bound_domain` never changes. */
  lemma {:induction false} RowsPersistAndBindingIsFinal(t: Table, ws: seq<Write>, key: string)
    requires key in t
    ensures var tn := ApplyAll(t, ws);
      && key in tn && tn[key].status == t[key].status && tn[key].email == t[key].email
      && tn[key].createdAt == t[key].createdAt
      && (!Unbound(t[key].boundDomain) ==> tn[key].boundDomain == t[key].boundDomain)
    decreases |ws|
  {
    if ws != [] {
      RowsPersistAndBindingIsFinal(Apply(t, ws[0]), ws[1..], key);
    }
  }
}
