/** The HTTP handlers of `/api/accidents`: how query strings, bodies and uploads are turned
    into service calls, and what each call answers. */
module Controller {
  import opened Wrappers
  import opened AccidentSchema
  import opened AccidentDto
  import opened AccidentStore
  import opened Gateway
  import opened Service
  import opened Base64

  // ------------------------------------------------------------ parseInt(s, 10)

  /** The white space and line terminators JavaScript skips before a number. */
  predicate IsJsSpace(c: char) {
    c == ' ' || '\t' <= c <= '\r' || c == '\U{00A0}' || c == '\U{1680}'
    || '\U{2000}' <= c <= '\U{200A}' || c == '\U{2028}' || c == '\U{2029}' || c == '\U{202F}'
    || c == '\U{205F}' || c == '\U{3000}' || c == '\U{FEFF}'
  }

  predicate IsDigit(c: char) {
    '0' <= c <= '9'
  }

  predicate AllDigits(s: string) {
    forall k :: 0 <= k < |s| ==> IsDigit(s[k])
  }

  /** The string without its leading white space. */
  function TrimStart(s: string): string {
    if |s| > 0 && IsJsSpace(s[0]) then TrimStart(s[1..]) else s
  }

  /** Trimming drops a run of white space from the front and stops at the first other
      character. */
  lemma {:induction false} TrimStartSuffix(s: string)
    ensures |TrimStart(s)| <= |s| && TrimStart(s) == s[|s| - |TrimStart(s)|..]
    ensures forall k :: 0 <= k < |s| - |TrimStart(s)| ==> IsJsSpace(s[k])
    ensures |TrimStart(s)| == 0 || !IsJsSpace(TrimStart(s)[0])
  {
    if |s| > 0 && IsJsSpace(s[0]) {
      TrimStartSuffix(s[1..]);
      assert s[1..][|s| - 1 - |TrimStart(s)|..] == s[|s| - |TrimStart(s)|..];
    }
  }

  /** The longest prefix made of decimal digits. */
  function LeadingDigits(s: string): (d: string)
    ensures d <= s && AllDigits(d)
    ensures |d| == |s| || !IsDigit(s[|d|])
  {
    if |s| > 0 && IsDigit(s[0]) then [s[0]] + LeadingDigits(s[1..]) else []
  }

  function DecimalValue(ds: string): nat
    requires AllDigits(ds)
  {
    if |ds| == 0 then 0 else DecimalValue(ds[..|ds| - 1]) * 10 + (ds[|ds| - 1] as int - '0' as int)
  }

  /** `parseInt(s, 10)`: leading white space, an optional sign, then as many digits as
      there are; `None` stands for `NaN`, when no digit follows. */
  function ParseInt(s: string): Option<int> {
    ParseSigned(TrimStart(s))
  }

  /** An optional sign followed by digits, at the start of `t`. */
  function ParseSigned(t: string): Option<int> {
    var unsigned := if |t| > 0 && (t[0] == '-' || t[0] == '+') then t[1..] else t;
    var ds := LeadingDigits(unsigned);
    var value: int := DecimalValue(ds);
    if |ds| == 0 then None
    else if |t| > 0 && t[0] == '-' then Some(-value)
    else Some(value)
  }

  /** The shortest decimal numeral of a natural number. */
  function Decimal(n: nat): (s: string)
    ensures |s| > 0 && AllDigits(s)
  {
    if n < 10 then [('0' as int + n) as char] else Decimal(n / 10) + [('0' as int + n % 10) as char]
  }

  lemma {:induction false} DecimalValueOfDecimal(n: nat)
    ensures DecimalValue(Decimal(n)) == n
  {
    if n >= 10 {
      var s := Decimal(n);
      assert s[..|s| - 1] == Decimal(n / 10);
      DecimalValueOfDecimal(n / 10);
    }
  }

  lemma {:induction false} LeadingDigitsOf(ds: string, rest: string)
    requires AllDigits(ds)
    requires |rest| == 0 || !IsDigit(rest[0])
    ensures LeadingDigits(ds + rest) == ds
  {
    if |ds| > 0 {
      assert (ds + rest)[1..] == ds[1..] + rest;
      LeadingDigitsOf(ds[1..], rest);
    } else {
      assert ds + rest == rest;
    }
  }

  /** A numeral, optionally signed and followed by anything that does not continue it,
      parses to its value. */
  lemma ParseIntNumeral(n: nat, rest: string)
    requires |rest| == 0 || !IsDigit(rest[0])
    ensures ParseInt(Decimal(n) + rest) == Some(n)
    ensures ParseInt(['-'] + (Decimal(n) + rest)) == Some(-(n as int))
    ensures ParseInt(['+'] + (Decimal(n) + rest)) == Some(n)
  {
    var d := Decimal(n);
    DecimalValueOfDecimal(n);
    LeadingDigitsOf(d, rest);
    UnsignedNumeral(d + rest, d);
    SignedNumeral('-', d + rest, d);
    SignedNumeral('+', d + rest, d);
  }

  lemma UnsignedNumeral(t: string, d: string)
    requires |d| > 0 && AllDigits(d) && LeadingDigits(t) == d
    ensures ParseInt(t) == Some(DecimalValue(d))
  {
    assert t[0] == d[0];
    assert TrimStart(t) == t;
  }

  lemma SignedNumeral(sign: char, t: string, d: string)
    requires sign == '-' || sign == '+'
    requires |d| > 0 && AllDigits(d) && LeadingDigits(t) == d
    ensures ParseInt([sign] + t) == Some(if sign == '-' then -(DecimalValue(d) as int) else DecimalValue(d))
  {
    assert TrimStart([sign] + t) == [sign] + t;
    assert ([sign] + t)[1..] == t;
  }

  /** Leading white space does not change the result. */
  lemma ParseIntSkipsSpace(c: char, s: string)
    requires IsJsSpace(c)
    ensures ParseInt([c] + s) == ParseInt(s)
  {
    assert ([c] + s)[1..] == s;
    assert TrimStart([c] + s) == TrimStart(s);
  }

  /** Text without a digit is `NaN`. */
  lemma ParseIntNaN(s: string)
    requires forall k :: 0 <= k < |s| ==> !IsDigit(s[k])
    ensures ParseInt(s) == None
  {
    TrimStartSuffix(s);
    var t := TrimStart(s);
    assert forall k :: 0 <= k < |t| ==> t[k] == s[|s| - |t| + k];
  }

  // ------------------------------------------------------------ findAll

  /** The filter `findAll` passes on: severity and status unchanged, the limit parsed only
      when the query string is present and non-empty. */
  function QueryFilter(severity: Option<string>, status: Option<string>, limit: Option<string>): (f: Filter)
    ensures f.severity == severity && f.status == status
    ensures !Given(limit) ==> f.limit.None?
    ensures Given(limit) ==> f.limit == ParseInt(limit.value)
  {
    Filter(severity, status, if Given(limit) then ParseInt(limit.value) else None)
  }

  /** An absent, empty, non-numeric or zero limit ends up at the default of 100. */
  lemma DefaultLimit(severity: Option<string>, status: Option<string>, limit: Option<string>)
    requires !Given(limit) || ParseInt(limit.value) == None || ParseInt(limit.value) == Some(0)
    ensures EffectiveLimit(QueryFilter(severity, status, limit).limit) == 100
  {
  }

  /** A positive numeral is the limit. */
  lemma NumeralLimit(severity: Option<string>, status: Option<string>, n: nat)
    requires n > 0
    ensures EffectiveLimit(QueryFilter(severity, status, Some(Decimal(n))).limit) == n
  {
    ParseIntNumeral(n, "");
    assert Decimal(n) + "" == Decimal(n);
  }

  // ------------------------------------------------------------ upload

  /** The create request `uploadImage` builds: the file bytes in base64, the posted gps or
      `0,0`, the posted severity or `medium`, and the device id as posted. */
  function UploadRequest(bytes: seq<Byte>, gps: Option<string>, severity: Option<string>,
                         deviceId: Option<string>): (d: CreateAccidentDto)
    ensures Decode(d.imageBase64) == Some(bytes)
    ensures d.gps == (if Given(gps) then gps.value else "0,0")
    ensures d.severity == Some(if Given(severity) then severity.value else "medium")
    ensures d.deviceId == deviceId && d.mlConfidence.None?
  {
    DecodeEncode(bytes);
    CreateAccidentDto(Encode(bytes), if Given(gps) then gps.value else "0,0",
                      Some(if Given(severity) then severity.value else "medium"), deviceId, None)
  }

  /** An HTTP answer: the status code and the record sent back, if any. */
  datatype Response = Response(status: nat, record: Option<Accident>)

  /** The answer to a create call: 201 with the stored record, or 500 when the store
      refuses the document. */
  function CreatedResponse(r: Result<Accident, SaveError>): (resp: Response)
    ensures r.Ok? <==> resp.status == 201
    ensures r.Ok? ==> resp.record == Some(r.value)
    ensures r.Err? ==> resp == Response(500, None)
  {
    if r.Ok? then Response(201, Some(r.value)) else Response(500, None)
  }

  class AccidentController {
    const service: AccidentService

    constructor(service: AccidentService)
      ensures this.service == service
    {
      this.service := service;
    }

    /** `GET /api/accidents?severity=&status=&limit=`. */
    method FindAll(severity: Option<string>, status: Option<string>, limit: Option<string>)
      returns (r: seq<Accident>)
      requires service.Valid()
      ensures r == service.FindAll(QueryFilter(severity, status, limit))
    {
      r := service.FindAll(QueryFilter(severity, status, limit));
    }

    /** `GET /api/accidents/stats`. */
    method GetStats(now: int, offset: int) returns (s: Stats)
      requires service.Valid()
      ensures s == service.GetStats(now, offset)
    {
      s := service.GetStats(now, offset);
    }

    /** `GET /api/accidents/:id`: the record, or `null` for an unknown id. */
    method FindById(id: nat) returns (r: Option<Accident>)
      ensures r.Some? <==> id in service.records
      ensures r.Some? ==> r.value == service.records[id]
    {
      r := service.FindById(id);
    }

    /** `POST /api/accidents`: a body that fails validation is answered 400 before the
        service runs; otherwise the service's result is answered 201, or 500 on a store
        error. */
    method Create(body: CreateBody, now: int) returns (resp: Response)
      requires service.Valid()
      modifies service`records, service`nextId, service.gateway`outbox
      ensures service.Valid()
      ensures ToCreateDto(body).None? ==> resp == Response(400, None)
      ensures ToCreateDto(body).None? ==>
                service.records == old(service.records) && service.nextId == old(service.nextId)
                && service.gateway.outbox == old(service.gateway.outbox)
      ensures ToCreateDto(body).Some? ==>
              var dto := ToCreateDto(body).value;
              resp == CreatedResponse(NewDocument(old(service.nextId), dto.imageBase64, dto.gps,
                                                  SeverityOrDefault(dto.severity), dto.deviceId, now))
      ensures resp.status == 201 ==>
                resp.record.Some? && service.records == old(service.records)[resp.record.value.id := resp.record.value]
                && service.nextId == old(service.nextId) + 1
                && service.gateway.outbox == old(service.gateway.outbox) + [NewAccidentEmission(resp.record.value)]
      ensures resp.status == 500 ==>
                service.records == old(service.records) && service.nextId == old(service.nextId)
                && service.gateway.outbox == old(service.gateway.outbox)
    {
      var dto := ToCreateDto(body);
      if dto.None? {
        resp := Response(400, None);
      } else {
        var r := service.Create(dto.value, now);
        resp := CreatedResponse(r);
      }
    }

    /** `POST /api/accidents/upload-image`: a request without a file fails with 500;
        otherwise the upload is stored like a created record, and the stored image decodes
        back to the uploaded bytes. */
    method UploadImage(file: Option<seq<Byte>>, gps: Option<string>, severity: Option<string>,
                       deviceId: Option<string>, now: int) returns (resp: Response)
      requires service.Valid()
      modifies service`records, service`nextId, service.gateway`outbox
      ensures service.Valid()
      ensures file.None? ==> resp == Response(500, None)
      ensures file.None? ==>
                service.records == old(service.records) && service.nextId == old(service.nextId)
                && service.gateway.outbox == old(service.gateway.outbox)
      ensures file.Some? ==>
              var dto := UploadRequest(file.value, gps, severity, deviceId);
              resp == CreatedResponse(NewDocument(old(service.nextId), dto.imageBase64, dto.gps,
                                                  SeverityOrDefault(dto.severity), dto.deviceId, now))
      ensures resp.status == 201 ==>
                file.Some? && resp.record.Some? && Decode(resp.record.value.imageBase64) == Some(file.value)
      ensures resp.status == 201 ==>
                resp.record.Some? && service.records == old(service.records)[resp.record.value.id := resp.record.value]
                && service.nextId == old(service.nextId) + 1
                && service.gateway.outbox == old(service.gateway.outbox) + [NewAccidentEmission(resp.record.value)]
      ensures resp.status == 500 ==>
                service.records == old(service.records) && service.nextId == old(service.nextId)
                && service.gateway.outbox == old(service.gateway.outbox)
    {
      if file.None? {
        resp := Response(500, None);
      } else {
        var r := service.Create(UploadRequest(file.value, gps, severity, deviceId), now);
        resp := CreatedResponse(r);
      }
    }

    /** `PUT /api/accidents/:id`: 400 for an invalid body; otherwise 200 with the updated
        record, or with `null` for an unknown id. */
    method Update(id: nat, body: UpdateBody) returns (resp: Response)
      requires service.Valid()
      modifies service`records, service.gateway`outbox
      ensures service.Valid() && service.nextId == old(service.nextId)
      ensures ToUpdateDto(body).None? ==> resp == Response(400, None)
      ensures ToUpdateDto(body).Some? && id !in old(service.records) ==> resp == Response(200, None)
      ensures ToUpdateDto(body).None? || id !in old(service.records) ==>
                service.records == old(service.records) && service.gateway.outbox == old(service.gateway.outbox)
      ensures ToUpdateDto(body).Some? && id in old(service.records) ==>
                resp == Response(200, Some(ApplyUpdate(old(service.records)[id], ToUpdateDto(body).value)))
                && service.records == old(service.records)[id := resp.record.value]
                && service.gateway.outbox == old(service.gateway.outbox) + [UpdateEmission(resp.record.value)]
    {
      var dto := ToUpdateDto(body);
      if dto.None? {
        resp := Response(400, None);
      } else {
        var r := service.Update(id, dto.value);
        resp := Response(200, r);
      }
    }
  }
}
