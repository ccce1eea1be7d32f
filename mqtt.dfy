/** The MQTT ingestion of camera reports: each message on the accident topic is parsed,
    checked for an image and turned into one create request with defaults filled in. */
module Mqtt {
  import opened Wrappers
  import opened AccidentSchema
  import opened AccidentDto
  import opened AccidentStore
  import opened Service

  /** The string fields of a parsed message; `None` is an absent key. */
  datatype MqttPayload = MqttPayload(
    image: Option<string>,
    imageBase64: Option<string>,
    gps: Option<string>,
    severity: Option<string>,
    deviceId: Option<string>)

  /** A message as received: text that is not a JSON object, or its fields. */
  datatype MqttMessage = Unparsable | Parsed(payload: MqttPayload)

  function OrDefault(s: Option<string>, default: string): (r: string)
    ensures Given(s) ==> r == s.value
    ensures !Given(s) ==> r == default
  {
    if Given(s) then s.value else default
  }

  /** `handleMessage`: no request when both image fields are absent or empty; otherwise the
      image (preferring `image`), the gps or `0,0`, the severity or `medium`, and the device
      id or `unknown-esp32`. */
  function HandleMessage(p: MqttPayload): (r: Option<CreateAccidentDto>)
    ensures r.None? <==> !Given(p.image) && !Given(p.imageBase64)
    ensures r.Some? ==> r.value.imageBase64 == (if Given(p.image) then p.image.value else p.imageBase64.value)
    ensures r.Some? ==> r.value.gps == OrDefault(p.gps, "0,0")
    ensures r.Some? ==> r.value.severity == Some(OrDefault(p.severity, "medium"))
    ensures r.Some? ==> r.value.deviceId == Some(OrDefault(p.deviceId, "unknown-esp32"))
    ensures r.Some? ==> r.value.mlConfidence.None?
  {
    if !Given(p.image) && !Given(p.imageBase64) then None
    else
      Some(CreateAccidentDto(
        if Given(p.image) then p.image.value else p.imageBase64.value,
        OrDefault(p.gps, "0,0"),
        Some(OrDefault(p.severity, "medium")),
        Some(OrDefault(p.deviceId, "unknown-esp32")),
        None))
  }

  /** A message whose fields are all present and non-empty is passed on unchanged. */
  lemma HandleMessageKeepsGivenFields(p: MqttPayload)
    requires Given(p.image) && Given(p.gps) && Given(p.severity) && Given(p.deviceId)
    ensures HandleMessage(p) == Some(CreateAccidentDto(p.image.value, p.gps.value, p.severity, p.deviceId, None))
  {
  }

  /** A request built from a message always carries an image and a gps, so the store can
      refuse it only for a severity outside the enumeration. */
  lemma MessageRefusedOnlyForSeverity(p: MqttPayload, id: nat, now: int)
    requires HandleMessage(p).Some?
    ensures var d := HandleMessage(p).value;
            NewDocument(id, d.imageBase64, d.gps, SeverityOrDefault(d.severity), d.deviceId, now).Err?
            <==> ParseSeverity(OrDefault(p.severity, "medium")).None?
  {
  }

  /** What became of one message; none of them escapes the message handler. */
  datatype Outcome = ParseFailed | Skipped | Stored(record: Accident) | CreateFailed(error: SaveError)

  class MqttService {
    const service: AccidentService

    constructor(service: AccidentService)
      ensures this.service == service
    {
      this.service := service;
    }

    /** The `message` callback: a parse failure or a refused document is reported as an
        outcome, a message without an image changes nothing, and an accepted message makes
        exactly one create call. */
    method OnMessage(msg: MqttMessage, now: int) returns (outcome: Outcome)
      requires service.Valid()
      modifies service`records, service`nextId, service.gateway`outbox
      ensures service.Valid()
      ensures msg.Unparsable? ==> outcome == ParseFailed
      ensures msg.Parsed? && HandleMessage(msg.payload).None? ==> outcome == Skipped
      ensures outcome == ParseFailed || outcome == Skipped || outcome.CreateFailed? ==>
                service.records == old(service.records) && service.nextId == old(service.nextId)
                && service.gateway.outbox == old(service.gateway.outbox)
      ensures msg.Parsed? && HandleMessage(msg.payload).Some? ==>
                var d := HandleMessage(msg.payload).value;
                var r := NewDocument(old(service.nextId), d.imageBase64, d.gps, SeverityOrDefault(d.severity),
                                     d.deviceId, now);
                outcome == (if r.Ok? then Stored(r.value) else CreateFailed(r.error))
      ensures outcome.Stored? ==>
                service.records == old(service.records)[outcome.record.id := outcome.record]
                && outcome.record.id == old(service.nextId) && service.nextId == old(service.nextId) + 1
                && service.gateway.outbox == old(service.gateway.outbox) + [Gateway.NewAccidentEmission(outcome.record)]
    {
      if msg.Unparsable? {
        outcome := ParseFailed;
      } else {
        var dto := HandleMessage(msg.payload);
        if dto.None? {
          outcome := Skipped;
        } else {
          var r := service.Create(dto.value, now);
          outcome := if r.Ok? then Stored(r.value) else CreateFailed(r.error);
        }
      }
    }
  }
}
