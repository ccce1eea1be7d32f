/** The accident service: the document store of accidents, the counter that names new
    documents, and the gateway that broadcasts every stored or changed record. */
module Service {
  import opened Wrappers
  import opened AccidentSchema
  import opened AccidentDto
  import opened Sequences
  import opened AccidentStore
  import opened Gateway

  /** `dto.severity || 'medium'`. */
  function SeverityOrDefault(severity: Option<string>): (s: string)
    ensures Given(severity) ==> s == severity.value
    ensures !Given(severity) ==> s == "medium"
  {
    if Given(severity) then severity.value else "medium"
  }

  /** How long the service waits for the ML service before giving up. */
  const MlTimeoutMs := 15000

  /** What the `/detect` request came back with: a failure (unreachable service, an error
      status, a malformed reply), or a verdict after `elapsedMs` milliseconds. */
  datatype MlOutcome = MlFailed | MlReplied(elapsedMs: nat, verdict: Verdict)

  /** A verdict is used only when it arrived within the timeout. */
  predicate Accepted(o: MlOutcome) {
    o.MlReplied? && o.elapsedMs <= MlTimeoutMs
  }

  class AccidentService {
    var records: map<nat, Accident>
    var nextId: nat
    const gateway: EventsGateway

    ghost predicate Valid()
      reads this
    {
      Consistent(records, nextId)
    }

    constructor(gateway: EventsGateway)
      ensures Valid()
      ensures records == map[] && nextId == 0 && this.gateway == gateway
    {
      records := map[];
      nextId := 0;
      this.gateway := gateway;
    }

    /** Every stored document, once each. */
    function All(): (r: seq<Accident>)
      reads this
      requires Valid()
      ensures |r| == |records|
      ensures forall i :: 0 <= i < |r| ==> r[i].id in records && records[r[i].id] == r[i]
      ensures forall k :: k in records ==> records[k] in r
      ensures forall i, j :: 0 <= i < j < |r| ==> r[i].id < r[j].id
    {
      ListedAll(records, nextId);
      ListedComplete(records, nextId);
      ListedOrdered(records, nextId);
      Listed(records, nextId)
    }

    /** Stores a new document from the payload, defaulting the severity to medium, and
        broadcasts it. A document the schema rejects is neither stored nor broadcast, and
        the error reaches the caller. The payload's `mlConfidence` is never stored. */
    method Create(dto: CreateAccidentDto, now: int) returns (r: Result<Accident, SaveError>)
      requires Valid()
      modifies this`records, this`nextId, gateway`outbox
      ensures Valid()
      ensures r == NewDocument(old(nextId), dto.imageBase64, dto.gps, SeverityOrDefault(dto.severity),
                               dto.deviceId, now)
      ensures r.Ok? ==> r.value.id !in old(records) && records == old(records)[r.value.id := r.value]
      ensures r.Ok? ==> nextId == old(nextId) + 1
      ensures r.Ok? ==> gateway.outbox == old(gateway.outbox) + [NewAccidentEmission(r.value)]
      ensures r.Err? ==> records == old(records) && nextId == old(nextId)
      ensures r.Err? ==> gateway.outbox == old(gateway.outbox)
    {
      r := NewDocument(nextId, dto.imageBase64, dto.gps, SeverityOrDefault(dto.severity),
                       dto.deviceId, now);
      if r.Ok? {
        records := records[nextId := r.value];
        nextId := nextId + 1;
        gateway.EmitAccident(r.value);
      }
    }

    /** Applies the ML verdict for a document created earlier (`snapshot` is the document as
        it was saved). A failed or late reply, or a document no longer stored, changes
        nothing; otherwise the merge is stored and the re-read document broadcast. */
    method VerifyWithML(snapshot: Accident, outcome: MlOutcome)
      requires Valid()
      modifies this`records, gateway`outbox
      ensures Valid() && nextId == old(nextId)
      ensures !Accepted(outcome) || snapshot.id !in old(records)
              ==> records == old(records) && gateway.outbox == old(gateway.outbox)
      ensures Accepted(outcome) && snapshot.id in old(records)
              ==> var merged := ApplyVerdict(old(records)[snapshot.id], snapshot, outcome.verdict);
                  records == old(records)[snapshot.id := merged]
                  && gateway.outbox == old(gateway.outbox) + [UpdateEmission(merged)]
    {
      if Accepted(outcome) && snapshot.id in records {
        var merged := ApplyVerdict(records[snapshot.id], snapshot, outcome.verdict);
        records := records[snapshot.id := merged];
        gateway.EmitAccidentUpdate(records[snapshot.id]);
      }
    }

    /** `findAll`: the matching documents, newest first, at most the effective limit of
        them, and no matching document left out is newer than one returned. */
    function FindAll(f: Filter): (r: seq<Accident>)
      reads this
      requires Valid()
      ensures forall i :: 0 <= i < |r| ==> r[i].id in records && records[r[i].id] == r[i] && Matches(r[i], f)
      ensures SortedDesc(r, Timestamp)
      ensures |r| == Min(EffectiveLimit(f.limit), CountWhere(records, MatchesFilter(f)))
      ensures forall k, x :: k in records && Matches(records[k], f) && records[k] !in r && x in r
                             ==> records[k].timestamp <= x.timestamp
      ensures forall i, j :: 0 <= i < j < |r| ==> r[i].id != r[j].id
    {
      FindAllOverStore(records, nextId, f);
      AccidentStore.FindAll(Listed(records, nextId), f)
    }

    /** `findById`: the document with that id, or nothing. */
    function FindById(id: nat): (r: Option<Accident>)
      reads this
      ensures r.Some? <==> id in records
      ensures r.Some? ==> r.value == records[id]
    {
      if id in records then Some(records[id]) else None
    }

    /** `findByIdAndUpdate(id, dto, {new: true})`: merges the present paths into the stored
        document, broadcasts and returns the new version; an unknown id yields nothing and
        changes nothing. */
    method Update(id: nat, dto: UpdateAccidentDto) returns (r: Option<Accident>)
      requires Valid()
      modifies this`records, gateway`outbox
      ensures Valid() && nextId == old(nextId)
      ensures id !in old(records) ==> r.None? && records == old(records) && gateway.outbox == old(gateway.outbox)
      ensures id in old(records) ==> r == Some(ApplyUpdate(old(records)[id], dto))
      ensures id in old(records) ==> records == old(records)[id := r.value]
      ensures id in old(records) ==> gateway.outbox == old(gateway.outbox) + [UpdateEmission(r.value)]
    {
      if id in records {
        var updated := ApplyUpdate(records[id], dto);
        records := records[id := updated];
        gateway.EmitAccidentUpdate(updated);
        r := Some(updated);
      } else {
        r := None;
      }
    }

    /** `getStats`: the number of documents, of critical ones, of high ones, of pending
        ones, and of those created since local midnight. */
    function GetStats(now: int, offset: int): (s: Stats)
      reads this
      requires Valid()
      ensures s.total == |records|
      ensures s.critical == CountWhere(records, IsCritical)
      ensures s.high == CountWhere(records, IsHigh)
      ensures s.pending == CountWhere(records, IsPending)
      ensures s.todayCount == CountWhere(records, CreatedSince(LocalMidnight(now, offset)))
      ensures s.critical + s.high <= s.total && s.pending <= s.total && s.todayCount <= s.total
    {
      var midnight := LocalMidnight(now, offset);
      ListedCount(records, nextId, IsCritical);
      ListedCount(records, nextId, IsHigh);
      ListedCount(records, nextId, IsPending);
      ListedCount(records, nextId, CreatedSince(midnight));
      ComputeStats(All(), midnight)
    }
  }
}
