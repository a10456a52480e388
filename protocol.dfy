/** The validation ladder both endpoints share: the input checks on the
    request, then the decision on the stored record. Origin parsing (the
    host of a URL) is the parameter `hostOf`, `None` when the origin does
    not parse. */
module Protocol {
  import opened Options
  import Text
  import opened Http
  import opened LicenseStore

  const MISSING_LICENSE: Response := Fail(400, "MISSING_LICENSE", "Missing license")
  const MISSING_ORIGIN: Response := Fail(400, "MISSING_ORIGIN", "Missing Origin header")
  const INVALID_ORIGIN: Response := Fail(400, "INVALID_ORIGIN", "Invalid Origin header")
  const LICENSE_NOT_FOUND: Response := Fail(403, "LICENSE_NOT_FOUND", "Invalid license")
  const LICENSE_INACTIVE: Response := Fail(403, "LICENSE_INACTIVE", "Inactive license")
  const LICENSE_NOT_BOUND: Response := Fail(403, "LICENSE_NOT_BOUND", "License not bound to a domain")
  const DOMAIN_MISMATCH: Response := Fail(403, "DOMAIN_MISMATCH", "License not valid for this domain")

  /** The license key of the request: the body's `license` string, trimmed;
      empty when the body has none (missing, unparsable, not a string). */
  function LicenseOf(field: Option<string>): string {
    if field.Some? then Text.Trim(field.value) else ""
  }

  datatype Input = Checked(license: string, host: string) | Rejected(response: Response)

  /** The three input checks, in order: license, Origin present, Origin parses. */
  function CheckInput(field: Option<string>, origin: Option<string>,
                      hostOf: string -> Option<string>): (r: Input)
    ensures r.Rejected? ==> r.response.status == 400 && r.response.body.Failure?
    ensures r.Checked? ==> r.license != "" && r.license == LicenseOf(field)
                           && Truthy(origin) && hostOf(origin.value) == Some(r.host)
  {
    var license := LicenseOf(field);
    if license == "" then Rejected(MISSING_LICENSE)
    else if !Truthy(origin) then Rejected(MISSING_ORIGIN)
    else match hostOf(origin.value)
      case None => Rejected(INVALID_ORIGIN)
      case Some(host) => Checked(license, host)
  }

  /** `String(status).toUpperCase() === "ACTIVE"`. */
  predicate IsActive(status: string) {
    Text.ToUpper(status) == "ACTIVE"
  }

  /** The bound domain as the handlers read it: "" for NULL. */
  function BoundOf(r: Record): string {
    if r.boundDomain.Some? then r.boundDomain.value else ""
  }

  /** What the ladder decides once the record is read: a reply, or the
      conditional bind followed by a reply that depends on the variant. */
  datatype Decision = Reply(response: Response) | BindThenReply

  function Decide(license: string, host: string, record: Option<Record>, autoBind: bool): (r: Decision)
    ensures r.BindThenReply? <==>
              record.Some? && IsActive(record.value.status) && BoundOf(record.value) == "" && autoBind
    ensures r.Reply? ==> r.response.status in {200, 403}
    ensures r.Reply? && r.response.Ok() ==>
              record.Some? && IsActive(record.value.status) && BoundOf(record.value) == host
  {
    match record
    case None => Reply(LICENSE_NOT_FOUND)
    case Some(r) =>
      if !IsActive(r.status) then Reply(LICENSE_INACTIVE)
      else if BoundOf(r) == "" then
        if autoBind then BindThenReply else Reply(LICENSE_NOT_BOUND)
      else if BoundOf(r) != host then Reply(DOMAIN_MISMATCH)
      else Reply(Response(200, Success(license, host, true)))
  }

  // ---- Properties ----

  /** The input checks run in order and each failure is a 400 with its own
      token; only a request passing all three reaches the store. */
  lemma InputChecksInOrder(field: Option<string>, origin: Option<string>, hostOf: string -> Option<string>)
    ensures var c := CheckInput(field, origin, hostOf);
      && (c == Rejected(MISSING_LICENSE) <==> LicenseOf(field) == "")
      && (c == Rejected(MISSING_ORIGIN) <==> LicenseOf(field) != "" && !Truthy(origin))
      && (c == Rejected(INVALID_ORIGIN) <==> LicenseOf(field) != "" && Truthy(origin) && hostOf(origin.value).None?)
      && (c.Checked? <==> LicenseOf(field) != "" && Truthy(origin) && hostOf(origin.value).Some?)
      && (c.Checked? ==> c.license == LicenseOf(field) && Some(c.host) == hostOf(origin.value))
      && (c.Rejected? ==> c.response.status == 400)
  {
  }

  /** A license key made only of white space is a missing license. */
  lemma BlankLicenseIsMissing(field: string, origin: Option<string>, hostOf: string -> Option<string>)
    requires Text.AllSpace(field)
    ensures CheckInput(Some(field), origin, hostOf) == Rejected(MISSING_LICENSE)
  {
    Text.TrimEmptyIffAllSpace(field);
  }

  /** A missing record is reported before anything about status. */
  lemma NotFoundFirst(license: string, host: string, autoBind: bool)
    ensures Decide(license, host, None, autoBind) == Reply(LICENSE_NOT_FOUND)
  {
  }

  /** A record whose status is not ACTIVE (ignoring case) is refused as
      inactive, whatever its bound domain, the host or the policy. */
  lemma InactiveIsRefused(license: string, host: string, r: Record, autoBind: bool)
    requires !IsActive(r.status)
    ensures Decide(license, host, Some(r), autoBind) == Reply(LICENSE_INACTIVE)
  {
  }

  /** A success reply is only ever given for an existing, active record
      that is bound to exactly the requesting host. */
  lemma SuccessOnlyForBoundHost(license: string, host: string, record: Option<Record>, autoBind: bool)
    requires Decide(license, host, record, autoBind).Reply?
    requires Decide(license, host, record, autoBind).response.Ok()
    ensures record.Some? && IsActive(record.value.status) && BoundOf(record.value) == host && host != ""
    ensures Decide(license, host, record, autoBind).response == Response(200, Success(license, host, true))
  {
  }

  /** The bind step is chosen exactly for an active, unbound record under
      the auto-bind policy; without the policy such a record is refused as
      not bound. */
  lemma BindOnlyWhenUnbound(license: string, host: string, record: Option<Record>, autoBind: bool)
    ensures Decide(license, host, record, autoBind) == BindThenReply <==>
      record.Some? && IsActive(record.value.status) && Unbound(record.value.boundDomain) && autoBind
    ensures record.Some? && IsActive(record.value.status) && Unbound(record.value.boundDomain) && !autoBind ==>
      Decide(license, host, record, autoBind) == Reply(LICENSE_NOT_BOUND)
  {
  }

  /** An active record bound to a non-empty domain: the same host gets a
      200, any other host a DOMAIN_MISMATCH. */
  lemma BoundRecordDecides(license: string, host: string, r: Record, autoBind: bool)
    requires IsActive(r.status) && !Unbound(r.boundDomain)
    ensures Decide(license, host, Some(r), autoBind) ==
      if r.boundDomain.value == host then Reply(Response(200, Success(license, host, true)))
      else Reply(DOMAIN_MISMATCH)
  {
  }

  /** Status is compared ignoring case. */
  lemma StatusCaseExamples()
    ensures IsActive("active") && IsActive("Active") && IsActive("ACTIVE")
    ensures !IsActive("INACTIVE") && !IsActive(" ACTIVE") && !IsActive("")
  {
    assert Text.ToUpper("active") == "ACTIVE";
    assert Text.ToUpper("Active") == "ACTIVE";
    assert Text.ToUpper("ACTIVE") == "ACTIVE";
    assert Text.ToUpper("INACTIVE")[0] == 'I';
    assert Text.ToUpper(" ACTIVE")[0] == ' ';
  }
}
