/** The request bodies of the accident endpoints and the validation the global validation
    pipe applies to them before a handler runs. A body field is an optional JSON value;
    `None` is an absent key. */
module AccidentDto {
  import opened Wrappers
  import opened AccidentSchema

  datatype JsonValue = JNull | JBool(b: bool) | JNumber(n: real) | JString(s: string) | JOther

  /** The create request the service accepts (`CreateAccidentDto`). */
  datatype CreateAccidentDto = CreateAccidentDto(
    imageBase64: string,
    gps: string,
    severity: Option<string>,
    deviceId: Option<string>,
    mlConfidence: Option<real>)

  /** The update request the service accepts (`UpdateAccidentDto`). */
  datatype UpdateAccidentDto = UpdateAccidentDto(
    status: Option<Status>,
    severity: Option<Severity>,
    address: Option<string>,
    verified: Option<bool>)

  datatype CreateBody = CreateBody(
    imageBase64: Option<JsonValue>,
    gps: Option<JsonValue>,
    severity: Option<JsonValue>,
    deviceId: Option<JsonValue>,
    mlConfidence: Option<JsonValue>)

  datatype UpdateBody = UpdateBody(
    status: Option<JsonValue>,
    severity: Option<JsonValue>,
    address: Option<JsonValue>,
    verified: Option<JsonValue>)

  /** `@IsOptional()`: an absent or null value skips the other validators. */
  predicate Skipped(v: Option<JsonValue>) {
    v.None? || v.value.JNull?
  }

  /** `@IsString()` on a required field. */
  predicate IsString(v: Option<JsonValue>) {
    v.Some? && v.value.JString?
  }

  predicate OptionalString(v: Option<JsonValue>) {
    Skipped(v) || v.value.JString?
  }

  predicate OptionalNumber(v: Option<JsonValue>) {
    Skipped(v) || v.value.JNumber?
  }

  predicate OptionalSeverity(v: Option<JsonValue>) {
    Skipped(v) || (v.value.JString? && ParseSeverity(v.value.s).Some?)
  }

  predicate OptionalStatus(v: Option<JsonValue>) {
    Skipped(v) || (v.value.JString? && ParseStatus(v.value.s).Some?)
  }

  /** The decorators of `CreateAccidentDto`. */
  predicate ValidCreate(b: CreateBody) {
    IsString(b.imageBase64) && IsString(b.gps) && OptionalSeverity(b.severity)
    && OptionalString(b.deviceId) && OptionalNumber(b.mlConfidence)
  }

  /** The decorators of `UpdateAccidentDto`; `verified` carries no type check, and the model
      admits only a boolean for it (see the README). */
  predicate ValidUpdate(b: UpdateBody) {
    OptionalStatus(b.status) && OptionalSeverity(b.severity) && OptionalString(b.address)
    && (Skipped(b.verified) || b.verified.value.JBool?)
  }

  function StringField(v: Option<JsonValue>): Option<string> {
    if v.Some? && v.value.JString? then Some(v.value.s) else None
  }

  /** A create body that passes validation, as the typed request the handler receives;
      `None` is the 400 response of the validation pipe. */
  function ToCreateDto(b: CreateBody): (r: Option<CreateAccidentDto>)
    ensures r.Some? <==> ValidCreate(b)
    ensures r.Some? ==> Some(JString(r.value.imageBase64)) == b.imageBase64
    ensures r.Some? ==> Some(JString(r.value.gps)) == b.gps
    ensures r.Some? && r.value.severity.Some? ==> ParseSeverity(r.value.severity.value).Some?
    ensures r.Some? ==> (r.value.severity.None? <==> Skipped(b.severity))
    ensures r.Some? ==> (r.value.deviceId.None? <==> Skipped(b.deviceId))
    ensures r.Some? ==> (r.value.mlConfidence.None? <==> Skipped(b.mlConfidence))
    ensures r.Some? && r.value.severity.Some? ==> b.severity == Some(JString(r.value.severity.value))
    ensures r.Some? && r.value.deviceId.Some? ==> b.deviceId == Some(JString(r.value.deviceId.value))
    ensures r.Some? && r.value.mlConfidence.Some? ==> b.mlConfidence == Some(JNumber(r.value.mlConfidence.value))
  {
    if !ValidCreate(b) then None
    else
      Some(CreateAccidentDto(
        b.imageBase64.value.s, b.gps.value.s, StringField(b.severity), StringField(b.deviceId),
        if b.mlConfidence.Some? && b.mlConfidence.value.JNumber? then Some(b.mlConfidence.value.n) else None))
  }

  /** An update body that passes validation, as the typed request; every field is optional. */
  function ToUpdateDto(b: UpdateBody): (r: Option<UpdateAccidentDto>)
    ensures r.Some? <==> ValidUpdate(b)
    ensures r.Some? ==> (r.value.status.None? <==> Skipped(b.status))
    ensures r.Some? && r.value.status.Some? ==> b.status == Some(JString(StatusName(r.value.status.value)))
    ensures r.Some? ==> (r.value.severity.None? <==> Skipped(b.severity))
    ensures r.Some? && r.value.severity.Some? ==> b.severity == Some(JString(SeverityName(r.value.severity.value)))
    ensures r.Some? ==> (r.value.address.None? <==> Skipped(b.address))
    ensures r.Some? && r.value.address.Some? ==> b.address == Some(JString(r.value.address.value))
    ensures r.Some? ==> (r.value.verified.None? <==> Skipped(b.verified))
    ensures r.Some? && r.value.verified.Some? ==> b.verified == Some(JBool(r.value.verified.value))
  {
    if !ValidUpdate(b) then None
    else
      Some(UpdateAccidentDto(
        if Skipped(b.status) then None else ParseStatus(b.status.value.s),
        if Skipped(b.severity) then None else ParseSeverity(b.severity.value.s),
        StringField(b.address),
        if Skipped(b.verified) then None else Some(b.verified.value.b)))
  }

  /** Every update field is optional: the empty body is accepted and changes nothing. */
  lemma EmptyUpdateIsValid()
    ensures ToUpdateDto(UpdateBody(None, None, None, None)) == Some(UpdateAccidentDto(None, None, None, None))
  {
  }
}
