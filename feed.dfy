/** The live accident list of the React dashboard: the socket handlers that prepend a new
    accident and replace an updated one, the filter applied before display, the alert
    trigger and the severity colours. The list holds the documents the backend broadcasts. */
module Feed {
  import opened AccidentSchema
  import opened Sequences

  /** `new-accident`: the accident goes in front of the list. */
  function OnNewAccident(list: seq<Accident>, a: Accident): (r: seq<Accident>)
    ensures |r| == |list| + 1
    ensures r[0] == a && r[1..] == list
  {
    [a] + list
  }

  /** The alert sound is played for a high or critical accident. */
  predicate AlertOnNew(a: Accident) {
    a.severity == High || a.severity == Critical
  }

  lemma AlertOnlyForHighOrCritical(a: Accident)
    ensures AlertOnNew(a) <==> SeverityRank(a.severity) >= SeverityRank(High)
  {
  }

  /** `accident-update`: every entry with the updated document's id is replaced by it. */
  function OnAccidentUpdate(list: seq<Accident>, updated: Accident): (r: seq<Accident>)
    ensures |r| == |list|
    ensures forall k :: 0 <= k < |r| ==> r[k] == (if list[k].id == updated.id then updated else list[k])
  {
    seq(|list|, k requires 0 <= k < |list| => if list[k].id == updated.id then updated else list[k])
  }

  /** An update for an id the list does not hold changes nothing. */
  lemma UpdateUnknownId(list: seq<Accident>, updated: Accident)
    requires forall k :: 0 <= k < |list| ==> list[k].id != updated.id
    ensures OnAccidentUpdate(list, updated) == list
  {
  }

  /** Receiving the same update twice leaves the list as after the first. */
  lemma UpdateIdempotent(list: seq<Accident>, updated: Accident)
    ensures OnAccidentUpdate(OnAccidentUpdate(list, updated), updated) == OnAccidentUpdate(list, updated)
  {
  }

  /** After an update, every entry with that id is the updated document; the others keep
      their place and value. */
  lemma UpdateReplacesExactly(list: seq<Accident>, updated: Accident, k: nat)
    requires k < |list|
    ensures OnAccidentUpdate(list, updated)[k].id == list[k].id
    ensures list[k].id == updated.id ==> OnAccidentUpdate(list, updated)[k] == updated
    ensures list[k].id != updated.id ==> OnAccidentUpdate(list, updated)[k] == list[k]
  {
  }

  /** The filter of the list: `all`, or a severity or status name. */
  predicate Shown(a: Accident, filter: string) {
    filter == "all" || SeverityName(a.severity) == filter || StatusName(a.status) == filter
  }

  function ShownBy(filter: string): Accident -> bool {
    (a: Accident) => Shown(a, filter)
  }

  /** `filteredAccidents`: the entries the filter keeps, in list order. */
  function FilterAccidents(list: seq<Accident>, filter: string): (r: seq<Accident>)
    ensures IsSubsequence(r, list)
    ensures forall k :: 0 <= k < |r| ==> Shown(r[k], filter)
    ensures forall a :: a in list && Shown(a, filter) ==> a in r
    ensures forall a :: multiset(r)[a] == (if Shown(a, filter) then multiset(list)[a] else 0)
  {
    KeepIsSubsequence(list, ShownBy(filter));
    KeepCount(list, ShownBy(filter));
    Keep(list, ShownBy(filter))
  }

  /** The filter `all` shows the whole list. */
  lemma FilterAllKeepsEverything(list: seq<Accident>)
    ensures FilterAccidents(list, "all") == list
  {
    KeepEverything(list, ShownBy("all"));
  }

  /** A new accident is shown first exactly when the filter admits it; the rest of the
      filtered list is unchanged. */
  lemma {:induction false} FilterAfterNew(list: seq<Accident>, a: Accident, filter: string)
    ensures Shown(a, filter) ==> FilterAccidents(OnNewAccident(list, a), filter) == [a] + FilterAccidents(list, filter)
    ensures !Shown(a, filter) ==> FilterAccidents(OnNewAccident(list, a), filter) == FilterAccidents(list, filter)
  {
    assert OnNewAccident(list, a)[1..] == list;
  }

  /** `getSeverityColor` on a severity name. */
  function SeverityColor(severity: string): (c: string)
    ensures severity == "critical" ==> c == "alert-high"
    ensures severity == "high" ==> c == "alert-medium"
    ensures severity == "medium" ==> c == "alert-low"
    ensures severity !in {"critical", "high", "medium"} ==> c == "gray-500"
  {
    if severity == "critical" then "alert-high"
    else if severity == "high" then "alert-medium"
    else if severity == "medium" then "alert-low"
    else "gray-500"
  }

  /** Only a low accident, among the four severities, is shown in grey. */
  lemma GreyOnlyForLow(s: Severity)
    ensures SeverityColor(SeverityName(s)) == "gray-500" <==> s == Low
  {
  }
}
