/** The `Accident` document: its fields, the severity and status enumerations, the defaults
    a new document receives and the checks the document store makes before it saves one. */
module AccidentSchema {
  import opened Wrappers

  datatype Severity = Low | Medium | High | Critical
  datatype Status = Pending | Dispatched | Resolved

  function SeverityName(s: Severity): string {
    match s
    case Low => "low"
    case Medium => "medium"
    case High => "high"
    case Critical => "critical"
  }

  /** The enum check of the `severity` path: only the four names are accepted. */
  function ParseSeverity(name: string): (r: Option<Severity>)
    ensures r.Some? <==> name in {"low", "medium", "high", "critical"}
    ensures r.Some? ==> SeverityName(r.value) == name
  {
    if name == "low" then Some(Low)
    else if name == "medium" then Some(Medium)
    else if name == "high" then Some(High)
    else if name == "critical" then Some(Critical)
    else None
  }

  lemma ParseSeverityName(s: Severity)
    ensures ParseSeverity(SeverityName(s)) == Some(s)
  {
  }

  function StatusName(s: Status): string {
    match s
    case Pending => "pending"
    case Dispatched => "dispatched"
    case Resolved => "resolved"
  }

  /** The enum check of the `status` path. */
  function ParseStatus(name: string): (r: Option<Status>)
    ensures r.Some? <==> name in {"pending", "dispatched", "resolved"}
    ensures r.Some? ==> StatusName(r.value) == name
  {
    if name == "pending" then Some(Pending)
    else if name == "dispatched" then Some(Dispatched)
    else if name == "resolved" then Some(Resolved)
    else None
  }

  lemma ParseStatusName(s: Status)
    ensures ParseStatus(StatusName(s)) == Some(s)
  {
  }

  /** Severity levels in increasing order of urgency. */
  function SeverityRank(s: Severity): nat {
    match s
    case Low => 0
    case Medium => 1
    case High => 2
    case Critical => 3
  }

  /** A stored accident. `id` stands for the generated `_id`; `timestamp` is in
      milliseconds since the epoch; absent optional paths are `None`. */
  datatype Accident = Accident(
    id: nat,
    imageBase64: string,
    timestamp: int,
    gps: string,
    severity: Severity,
    verified: bool,
    mlConfidence: Option<real>,
    deviceId: Option<string>,
    address: Option<string>,
    status: Status)

  /** The required paths hold a value: the store never keeps a document without them. */
  predicate WellFormed(a: Accident) {
    a.imageBase64 != "" && a.gps != ""
  }

  /** The failure of `save()`: the paths whose validators rejected the document. */
  datatype SaveError = ValidationError(paths: set<string>)

  /** The paths that fail validation: a required string that is empty, a severity outside
      the enumeration. */
  function InvalidPaths(imageBase64: string, gps: string, severity: string): (r: set<string>)
    ensures r <= {"imageBase64", "gps", "severity"}
    ensures "imageBase64" in r <==> imageBase64 == ""
    ensures "gps" in r <==> gps == ""
    ensures "severity" in r <==> ParseSeverity(severity).None?
  {
    (if imageBase64 == "" then {"imageBase64"} else {}) +
    (if gps == "" then {"gps"} else {}) +
    (if ParseSeverity(severity).None? then {"severity"} else {})
  }

  /** A new document as `save()` stores it: the given paths, and the schema defaults for
      the others (`verified` false, `status` pending, no confidence and no address); or the
      validation error when a required path is empty or the severity is not in the enum. */
  function NewDocument(id: nat, imageBase64: string, gps: string, severity: string,
                       deviceId: Option<string>, timestamp: int): (r: Result<Accident, SaveError>)
    ensures r.Err? <==> InvalidPaths(imageBase64, gps, severity) != {}
    ensures r.Err? ==> r.error == ValidationError(InvalidPaths(imageBase64, gps, severity))
    ensures r.Ok? ==> WellFormed(r.value)
    ensures r.Ok? ==> SeverityName(r.value.severity) == severity
    ensures r.Ok? ==> r.value.status == Pending && !r.value.verified
    ensures r.Ok? ==> r.value.mlConfidence.None? && r.value.address.None?
    ensures r.Ok? ==> r.value.id == id && r.value.timestamp == timestamp
    ensures r.Ok? ==> r.value.imageBase64 == imageBase64 && r.value.gps == gps && r.value.deviceId == deviceId
  {
    var invalid := InvalidPaths(imageBase64, gps, severity);
    if invalid != {} then Err(ValidationError(invalid))
    else
      Ok(Accident(id, imageBase64, timestamp, gps, ParseSeverity(severity).value, false,
                  None, deviceId, None, Pending))
  }
}
