/** The semantics of the document store as the accident service uses it: a map from id to
    document, listed in id (insertion) order, with equality filters, newest-first sorting,
    a capped result, merge updates and counts. */
module AccidentStore {
  import opened Wrappers
  import opened AccidentSchema
  import opened AccidentDto
  import opened Sequences

  /** Every key is below the id counter and is the id of the document it maps to; every
      document has its required paths. */
  predicate Consistent(records: map<nat, Accident>, nextId: nat) {
    forall k :: k in records ==> k < nextId && records[k].id == k && WellFormed(records[k])
  }

  /** The documents with an id below `n`, in increasing id order. */
  function Listed(records: map<nat, Accident>, n: nat): (r: seq<Accident>)
    requires forall k :: k in records ==> records[k].id == k
    ensures forall i :: 0 <= i < |r| ==> r[i].id < n && r[i].id in records && records[r[i].id] == r[i]
  {
    if n == 0 then []
    else
      var prefix := Listed(records, n - 1);
      if n - 1 in records then prefix + [records[n - 1]] else prefix
  }

  /** Every document with an id below `n` is listed. */
  lemma {:induction false} ListedComplete(records: map<nat, Accident>, n: nat)
    requires forall k :: k in records ==> records[k].id == k
    ensures forall k :: k in records && k < n ==> records[k] in Listed(records, n)
  {
    if n > 0 {
      ListedComplete(records, n - 1);
    }
  }

  /** The listing is in increasing id order. */
  lemma {:induction false} ListedOrdered(records: map<nat, Accident>, n: nat)
    requires forall k :: k in records ==> records[k].id == k
    ensures forall i, j :: 0 <= i < j < |Listed(records, n)| ==> Listed(records, n)[i].id < Listed(records, n)[j].id
  {
    if n > 0 {
      ListedOrdered(records, n - 1);
    }
  }

  /** The keys below `n` whose documents satisfy `p`. */
  function KeysWhere(records: map<nat, Accident>, n: nat, p: Accident -> bool): set<nat> {
    set k | k in records && k < n && p(records[k])
  }

  lemma KeysWhereStep(records: map<nat, Accident>, n: nat, p: Accident -> bool)
    requires n > 0
    ensures KeysWhere(records, n, p)
         == KeysWhere(records, n - 1, p) + (if n - 1 in records && p(records[n - 1]) then {n - 1} else {})
  {
  }

  /** Filtering the listing keeps one entry per key whose document satisfies the filter. */
  lemma {:induction false} ListedKeepSize(records: map<nat, Accident>, n: nat, p: Accident -> bool)
    requires forall k :: k in records ==> records[k].id == k
    ensures |Keep(Listed(records, n), p)| == |KeysWhere(records, n, p)|
  {
    if n > 0 {
      ListedKeepSize(records, n - 1, p);
      KeysWhereStep(records, n, p);
      var prefix := Listed(records, n - 1);
      var before := KeysWhere(records, n - 1, p);
      assert n - 1 !in before;
      if n - 1 in records {
        assert Listed(records, n) == prefix + [records[n - 1]];
        KeepAppend(prefix, records[n - 1], p);
      } else {
        assert Listed(records, n) == prefix;
      }
    }
  }

  /** The number of stored documents that satisfy `p`: what `countDocuments(query)` returns. */
  function CountWhere(records: map<nat, Accident>, p: Accident -> bool): nat {
    |set k | k in records && p(records[k])|
  }

  /** Over a consistent store, filtering the full listing counts the matching documents. */
  lemma ListedCount(records: map<nat, Accident>, nextId: nat, p: Accident -> bool)
    requires Consistent(records, nextId)
    ensures |Keep(Listed(records, nextId), p)| == CountWhere(records, p)
  {
    ListedKeepSize(records, nextId, p);
    assert KeysWhere(records, nextId, p) == set k | k in records && p(records[k]);
  }

  function Everything(a: Accident): bool { true }

  /** With a consistent store, the listing below the counter has one entry per document. */
  lemma ListedAll(records: map<nat, Accident>, nextId: nat)
    requires Consistent(records, nextId)
    ensures |Listed(records, nextId)| == |records|
  {
    ListedKeepSize(records, nextId, Everything);
    KeepEverything(Listed(records, nextId), Everything);
    assert KeysWhere(records, nextId, Everything) == records.Keys;
  }

  // ---------------------------------------------------------------- listing

  /** The filters of `findAll`; an absent or empty string imposes no constraint, and an
      absent limit stands for `undefined` and `NaN` alike. */
  datatype Filter = Filter(severity: Option<string>, status: Option<string>, limit: Option<int>)

  /** JavaScript truthiness of an optional string. */
  predicate Given(s: Option<string>) {
    s.Some? && s.value != ""
  }

  /** The equality query built from the filters. */
  predicate Matches(a: Accident, f: Filter) {
    (!Given(f.severity) || SeverityName(a.severity) == f.severity.value)
    && (!Given(f.status) || StatusName(a.status) == f.status.value)
  }

  function MatchesFilter(f: Filter): Accident -> bool {
    (a: Accident) => Matches(a, f)
  }

  /** `filters?.limit || 100`, then the cursor limit: zero and a missing limit mean 100, a
      negative limit returns at most its magnitude. */
  function EffectiveLimit(limit: Option<int>): (n: nat)
    ensures limit.None? || limit.value == 0 ==> n == 100
    ensures limit.Some? && limit.value > 0 ==> n == limit.value
    ensures n > 0
  {
    if limit.None? || limit.value == 0 then 100
    else if limit.value < 0 then -limit.value
    else limit.value
  }

  function Timestamp(a: Accident): int { a.timestamp }

  /** `find(query).sort({timestamp: -1}).limit(n)` over the documents in insertion order. */
  function FindAll(all: seq<Accident>, f: Filter): (r: seq<Accident>)
    ensures forall i :: 0 <= i < |r| ==> r[i] in all && Matches(r[i], f)
    ensures SortedDesc(r, Timestamp)
    ensures |r| == Min(EffectiveLimit(f.limit), |Keep(all, MatchesFilter(f))|)
    ensures multiset(r) <= multiset(Keep(all, MatchesFilter(f)))
  {
    FilterSortTake(all, MatchesFilter(f), Timestamp, EffectiveLimit(f.limit));
    Take(SortDesc(Keep(all, MatchesFilter(f)), Timestamp), EffectiveLimit(f.limit))
  }

  /** Over a listing in increasing id order, no document is returned twice. */
  lemma FindAllDistinctIds(all: seq<Accident>, f: Filter)
    requires forall i, j :: 0 <= i < j < |all| ==> all[i].id < all[j].id
    ensures forall i, j :: 0 <= i < j < |FindAll(all, f)| ==> FindAll(all, f)[i].id != FindAll(all, f)[j].id
  {
    var r := FindAll(all, f);
    KeepMultiset(all, MatchesFilter(f));
    SubMultisetDistinct(r, all);
    forall i, j | 0 <= i < j < |r| ensures r[i].id != r[j].id {
      var a :| 0 <= a < |all| && all[a] == r[i];
      var b :| 0 <= b < |all| && all[b] == r[j];
      assert r[i] != r[j];
      if a < b {
        assert all[a].id < all[b].id;
      } else {
        assert a != b;
        assert all[b].id < all[a].id;
      }
    }
  }

  /** The listing is the newest-first prefix: a matching document it leaves out is no newer
      than any document it returns. */
  lemma FindAllKeepsNewest(all: seq<Accident>, f: Filter, y: Accident)
    requires y in all && Matches(y, f) && y !in FindAll(all, f)
    ensures forall x :: x in FindAll(all, f) ==> y.timestamp <= x.timestamp
  {
    var matching := Keep(all, MatchesFilter(f));
    var sorted := SortDesc(matching, Timestamp);
    assert y in matching;
    assert y in multiset(sorted);
    TakeKeepsNewest(sorted, EffectiveLimit(f.limit), Timestamp, y);
  }

  lemma FindAllNewestFirst(all: seq<Accident>, f: Filter)
    ensures forall y, x :: y in all && Matches(y, f) && y !in FindAll(all, f) && x in FindAll(all, f)
                           ==> y.timestamp <= x.timestamp
  {
    forall y | y in all && Matches(y, f) && y !in FindAll(all, f) {
      FindAllKeepsNewest(all, f, y);
    }
  }

  /** `findAll` over a consistent store: stored matching documents, newest first, as many
      as the limit allows of those that match, none twice, and none left out newer than
      one returned. */
  lemma FindAllOverStore(records: map<nat, Accident>, nextId: nat, f: Filter)
    requires Consistent(records, nextId)
    ensures forall i :: 0 <= i < |FindAll(Listed(records, nextId), f)| ==>
              var a := FindAll(Listed(records, nextId), f)[i]; a.id in records && records[a.id] == a && Matches(a, f)
    ensures |FindAll(Listed(records, nextId), f)| == Min(EffectiveLimit(f.limit), CountWhere(records, MatchesFilter(f)))
    ensures forall k, x :: k in records && Matches(records[k], f) && records[k] !in FindAll(Listed(records, nextId), f)
                           && x in FindAll(Listed(records, nextId), f)
                           ==> records[k].timestamp <= x.timestamp
    ensures forall i, j :: 0 <= i < j < |FindAll(Listed(records, nextId), f)| ==>
              FindAll(Listed(records, nextId), f)[i].id != FindAll(Listed(records, nextId), f)[j].id
  {
    var all := Listed(records, nextId);
    ListedCount(records, nextId, MatchesFilter(f));
    ListedComplete(records, nextId);
    ListedOrdered(records, nextId);
    FindAllNewestFirst(all, f);
    FindAllDistinctIds(all, f);
  }

  /** A listing with no filter and room for everything returns every document. */
  lemma FindAllUnfiltered(all: seq<Accident>, limit: int)
    requires |all| <= EffectiveLimit(Some(limit))
    ensures |FindAll(all, Filter(None, None, Some(limit)))| == |all|
  {
    KeepEverything(all, MatchesFilter(Filter(None, None, Some(limit))));
  }

  // ---------------------------------------------------------------- updates

  /** `findByIdAndUpdate(id, dto)`: the paths present in the update replace the stored
      ones; every other path keeps its value. */
  function ApplyUpdate(a: Accident, u: UpdateAccidentDto): (r: Accident)
    ensures r.status == u.status.GetOr(a.status)
    ensures r.severity == u.severity.GetOr(a.severity)
    ensures r.address == (if u.address.Some? then u.address else a.address)
    ensures r.verified == u.verified.GetOr(a.verified)
    ensures r.id == a.id && r.imageBase64 == a.imageBase64 && r.timestamp == a.timestamp
    ensures r.gps == a.gps && r.mlConfidence == a.mlConfidence && r.deviceId == a.deviceId
  {
    a.(status := u.status.GetOr(a.status),
       severity := u.severity.GetOr(a.severity),
       address := if u.address.Some? then u.address else a.address,
       verified := u.verified.GetOr(a.verified))
  }

  lemma ApplyEmptyUpdate(a: Accident)
    ensures ApplyUpdate(a, UpdateAccidentDto(None, None, None, None)) == a
  {
  }

  /** Applying the same update twice is the same as applying it once. */
  lemma ApplyUpdateIdempotent(a: Accident, u: UpdateAccidentDto)
    ensures ApplyUpdate(ApplyUpdate(a, u), u) == ApplyUpdate(a, u)
  {
  }

  /** The verdict of the ML service, as the `/detect` reply gives it. `severity` is `None`
      when the reply's severity is absent or empty. */
  datatype Verdict = Verdict(isAccident: bool, confidence: real, severity: Option<Severity>)

  /** The merge `verifyWithML` sends: `verified` and `mlConfidence` from the verdict, and the
      verdict's severity, or else the severity of the document as it was when created
      (`snapshot`), not the one currently stored. */
  function ApplyVerdict(current: Accident, snapshot: Accident, v: Verdict): (r: Accident)
    ensures r.verified == v.isAccident && r.mlConfidence == Some(v.confidence)
    ensures r.severity == (if v.severity.Some? then v.severity.value else snapshot.severity)
    ensures r == current.(verified := r.verified, mlConfidence := r.mlConfidence, severity := r.severity)
  {
    current.(verified := v.isAccident, mlConfidence := Some(v.confidence),
             severity := v.severity.GetOr(snapshot.severity))
  }

  /** When the reply carries no severity, a severity set by an update after creation is
      overwritten with the creation-time one. */
  lemma VerdictRestoresSnapshotSeverity(a: Accident, u: UpdateAccidentDto, c: real, b: bool)
    requires u.severity.Some?
    ensures ApplyVerdict(ApplyUpdate(a, u), a, Verdict(b, c, None)).severity == a.severity
  {
  }

  // ---------------------------------------------------------------- stats

  datatype Stats = Stats(total: nat, critical: nat, high: nat, pending: nat, todayCount: nat)

  const DayMs := 86_400_000

  /** `setHours(0, 0, 0, 0)` on the current time, for a zone `offset` milliseconds ahead of
      UTC: the start of the local calendar day. */
  function LocalMidnight(now: int, offset: int): (m: int)
    ensures m <= now < m + DayMs
    ensures (m + offset) % DayMs == 0
  {
    now - (now + offset) % DayMs
  }

  predicate IsCritical(a: Accident) { a.severity == Critical }
  predicate IsHigh(a: Accident) { a.severity == High }
  predicate IsPending(a: Accident) { a.status == Pending }

  function CreatedSince(midnight: int): Accident -> bool {
    (a: Accident) => a.timestamp >= midnight
  }

  /** The five `countDocuments` of `getStats`, over the listed documents. */
  function ComputeStats(all: seq<Accident>, midnight: int): (s: Stats)
    ensures s.total == |all|
    ensures s.critical <= s.total && s.high <= s.total && s.pending <= s.total && s.todayCount <= s.total
    ensures s.critical + s.high <= s.total
  {
    KeepDisjoint(all, IsCritical, IsHigh);
    Stats(|all|, |Keep(all, IsCritical)|, |Keep(all, IsHigh)|, |Keep(all, IsPending)|,
          |Keep(all, CreatedSince(midnight))|)
  }
}
