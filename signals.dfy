/** The browser side of the standalone dashboard: the WebSocket reconnect back-off, the
    four traffic-signal lamps, and the accident panel with its alert banner, whose
    re-showing is gated by the lane and by the time since the last dismissal. The page's
    module-level variables and the parts of the DOM the handlers toggle are the fields of
    one object; `Date.now()` is a parameter. */
module Signals {
  import opened Wrappers
  import opened Text
  import opened History

  // ------------------------------------------------------------ reconnect back-off

  function Pow2(n: nat): (r: nat)
    ensures r >= 1
  {
    if n == 0 then 1 else 2 * Pow2(n - 1)
  }

  lemma {:induction false} Pow2Monotone(m: nat, n: nat)
    requires m <= n
    ensures Pow2(m) <= Pow2(n)
    decreases n
  {
    if m < n {
      Pow2Monotone(m, n - 1);
    }
  }

  const MaxDelayMs := 15000

  /** `Math.min(1000 * Math.pow(2, wsRetry), 15000)`. */
  function ReconnectDelay(retry: nat): (d: nat)
    ensures d <= MaxDelayMs
    ensures 1000 * Pow2(retry) <= MaxDelayMs ==> d == 1000 * Pow2(retry)
    ensures 1000 * Pow2(retry) >= MaxDelayMs ==> d == MaxDelayMs
  {
    if 1000 * Pow2(retry) < MaxDelayMs then 1000 * Pow2(retry) else MaxDelayMs
  }

  /** The first five waits: 1, 2, 4 and 8 seconds, then the cap. */
  lemma ReconnectSchedule()
    ensures ReconnectDelay(0) == 1000 && ReconnectDelay(1) == 2000
    ensures ReconnectDelay(2) == 4000 && ReconnectDelay(3) == 8000
    ensures ReconnectDelay(4) == MaxDelayMs
  {
    assert Pow2(1) == 2 && Pow2(2) == 4 && Pow2(3) == 8 && Pow2(4) == 16;
  }

  /** Each further retry waits at least as long as the one before. */
  lemma ReconnectDelayGrows(m: nat, n: nat)
    requires m <= n
    ensures ReconnectDelay(m) <= ReconnectDelay(n)
  {
    Pow2Monotone(m, n);
  }

  /** From the fifth attempt on, the delay is the 15-second cap. */
  lemma ReconnectDelayCapped(n: nat)
    requires n >= 4
    ensures ReconnectDelay(n) == MaxDelayMs
  {
    Pow2Monotone(4, n);
    assert Pow2(4) == 16;
  }

  // ------------------------------------------------------------ signal lamps

  /** What one lane shows: the state text and its three lamps. */
  datatype LaneSignal = LaneSignal(state: string, red: bool, yellow: bool, green: bool)

  /** The key of lane `i` in the `signals` object. */
  function LaneKey(i: nat): string
    requires 1 <= i <= 4
  {
    "lane" + [('0' as int + i) as char]
  }

  /** `(signals[key] || "RED").toUpperCase()`: a missing or empty state counts as red. */
  function LaneState(signals: map<string, string>, i: nat): (s: string)
    requires 1 <= i <= 4
    ensures LaneKey(i) !in signals || signals[LaneKey(i)] == "" ==> s == "RED"
    ensures LaneKey(i) in signals && signals[LaneKey(i)] != "" ==> s == ToUpper(signals[LaneKey(i)])
  {
    var raw := if LaneKey(i) in signals && signals[LaneKey(i)] != "" then signals[LaneKey(i)] else "RED";
    assert ToUpper("RED") == "RED";
    ToUpper(raw)
  }

  /** Lane `i` after an update: each lamp is on when the state names its colour. */
  function SignalFor(signals: map<string, string>, i: nat): LaneSignal
    requires 1 <= i <= 4
  {
    var state := LaneState(signals, i);
    LaneSignal(state, state == "RED", state == "YELLOW", state == "GREEN")
  }

  function LampsOn(s: LaneSignal): nat {
    (if s.red then 1 else 0) + (if s.yellow then 1 else 0) + (if s.green then 1 else 0)
  }

  /** At most one lamp of a lane is on, and exactly one when the state is a colour. */
  lemma OneLampAtMost(signals: map<string, string>, i: nat)
    requires 1 <= i <= 4
    ensures LampsOn(SignalFor(signals, i)) <= 1
    ensures LampsOn(SignalFor(signals, i)) == 1 <==> LaneState(signals, i) in {"RED", "YELLOW", "GREEN"}
  {
  }

  /** A lane the message leaves out shows red. */
  lemma MissingLaneIsRed(signals: map<string, string>, i: nat)
    requires 1 <= i <= 4 && LaneKey(i) !in signals
    ensures SignalFor(signals, i) == LaneSignal("RED", true, false, false)
  {
  }

  /** The state is read case-insensitively: a lower-case colour lights the same lamp. */
  lemma LowerCaseGreen(signals: map<string, string>, i: nat)
    requires 1 <= i <= 4 && LaneKey(i) in signals && signals[LaneKey(i)] == "green"
    ensures SignalFor(signals, i).green && !SignalFor(signals, i).red
  {
    assert ToUpper("green") == "GREEN";
  }

  // ------------------------------------------------------------ accident panel

  /** The lane shown for an accident: its number, or `?`. */
  datatype LaneValue = LaneNumber(n: int) | Unknown

  /** `accident.lane_id || "?"`: a missing or zero lane is unknown. */
  function LaneOfFeed(f: AccidentFeed): (lane: LaneValue)
    ensures lane.Unknown? <==> f.laneId.None? || f.laneId.value == 0
    ensures lane.LaneNumber? ==> Some(lane.n) == f.laneId
  {
    if f.laneId.Some? && f.laneId.value != 0 then LaneNumber(f.laneId.value) else Unknown
  }

  const RealertMs := 10000

  /** The banner is raised for an accident on a lane other than the last one, or once
      more than ten seconds have passed since it was dismissed. */
  predicate RaisesBanner(lane: LaneValue, last: Option<LaneValue>, dismissedAt: int, now: int) {
    last != Some(lane) || now - dismissedAt > RealertMs
  }

  /** Within ten seconds of a dismissal, a report on the same lane stays silent. */
  lemma SameLaneSuppressed(lane: LaneValue, dismissedAt: int, now: int)
    ensures !RaisesBanner(lane, Some(lane), dismissedAt, now) <==> now - dismissedAt <= RealertMs
  {
  }

  /** The first accident ever reported always raises the banner. */
  lemma FirstAccidentAlerts(lane: LaneValue, dismissedAt: int, now: int)
    ensures RaisesBanner(lane, None, dismissedAt, now)
  {
  }

  /** When the backend cannot be reached, the relay's fallback reply reports no accident,
      so polling it never raises the banner or marks an accident as seen. */
  lemma FallbackReportsNoAccident(error: string)
    ensures !ProxyAccident(Err(error)).status
    ensures LaneOfFeed(ProxyAccident(Err(error))) == Unknown
  {
  }

  /** One WebSocket message: unparsable, or the fields the page reads. */
  datatype DashMessage =
    | Malformed
    | DashMessage(backendConnected: bool, signals: Option<map<string, string>>, accident: Option<AccidentFeed>)

  class SignalDashboard {
    var wsRetry: nat
    var badge: string
    var lastAccidentLane: Option<LaneValue>
    var alertDismissedTime: int
    var accidentSeen: bool
    var bannerVisible: bool
    var bannerLane: Option<LaneValue>
    var alertsPlayed: nat
    var accStatus: string
    var activeBorder: bool
    const lamps: array<LaneSignal>

    predicate Valid()
      reads this
    {
      lamps.Length == 4
    }

    /** The page as loaded: no accident seen, no dismissal, the banner hidden, all lamps
        off. */
    constructor ()
      ensures Valid() && fresh(lamps)
      ensures wsRetry == 0 && lastAccidentLane.None? && alertDismissedTime == 0 && !accidentSeen
      ensures !bannerVisible && bannerLane.None? && alertsPlayed == 0 && !activeBorder
      ensures forall k :: 0 <= k < 4 ==> lamps[k] == LaneSignal("", false, false, false)
    {
      wsRetry := 0;
      badge := "";
      lastAccidentLane := None;
      alertDismissedTime := 0;
      accidentSeen := false;
      bannerVisible := false;
      bannerLane := None;
      alertsPlayed := 0;
      accStatus := "";
      activeBorder := false;
      lamps := new LaneSignal[4](_ => LaneSignal("", false, false, false));
    }

    /** `ws.onopen`: the back-off starts over. */
    method OnOpen()
      modifies this`wsRetry, this`badge
      ensures wsRetry == 0 && badge == "Connected"
    {
      wsRetry := 0;
      badge := "Connected";
    }

    /** `ws.onclose`: the delay before the next attempt, and one more retry counted. */
    method OnClose() returns (delay: nat)
      modifies this`wsRetry, this`badge
      ensures delay == ReconnectDelay(old(wsRetry))
      ensures wsRetry == old(wsRetry) + 1 && badge == "Disconnected"
    {
      badge := "Disconnected";
      delay := ReconnectDelay(wsRetry);
      wsRetry := wsRetry + 1;
    }

    /** The dismiss button: the banner is hidden and the time noted. */
    method Dismiss(now: int)
      modifies this`bannerVisible, this`alertDismissedTime
      ensures !bannerVisible && alertDismissedTime == now
    {
      bannerVisible := false;
      alertDismissedTime := now;
    }

    /** `updateSignals`: lanes 1 to 4 in turn. */
    method UpdateSignals(signals: map<string, string>)
      requires Valid()
      modifies lamps
      ensures forall k :: 0 <= k < 4 ==> lamps[k] == SignalFor(signals, k + 1)
    {
      for i := 1 to 5
        invariant forall k :: 0 <= k < i - 1 ==> lamps[k] == SignalFor(signals, k + 1)
      {
        lamps[i - 1] := SignalFor(signals, i);
      }
    }

    /** `updateAccident`: nothing for a missing report; a report of an accident fills the
        panel, raises the banner when the gate allows it and remembers the lane; a report
        of no accident turns the status to `Clear` once an accident has been seen. */
    method UpdateAccident(accident: Option<AccidentFeed>, now: int)
      modifies this`accStatus, this`activeBorder, this`bannerVisible, this`bannerLane,
               this`alertsPlayed, this`lastAccidentLane, this`accidentSeen
      ensures accident.None? ==> unchanged(this)
      ensures accident.Some? && accident.value.status ==>
                var lane := LaneOfFeed(accident.value);
                var raise := RaisesBanner(lane, old(lastAccidentLane), alertDismissedTime, now);
                && accStatus == "ACCIDENT"
                && activeBorder == (accident.value.frame != "" || old(activeBorder))
                && bannerVisible == (raise || old(bannerVisible))
                && bannerLane == (if raise then Some(lane) else old(bannerLane))
                && alertsPlayed == old(alertsPlayed) + (if raise then 1 else 0)
                && lastAccidentLane == Some(lane)
                && accidentSeen
      ensures accident.Some? && !accident.value.status ==>
                && accStatus == (if old(accidentSeen) then "Clear" else old(accStatus))
                && activeBorder == (old(activeBorder) && !old(accidentSeen))
                && bannerVisible == old(bannerVisible) && bannerLane == old(bannerLane)
                && alertsPlayed == old(alertsPlayed)
                && lastAccidentLane == old(lastAccidentLane)
                && accidentSeen == old(accidentSeen)
    {
      if accident.None? {
        return;
      }
      var report := accident.value;
      if report.status {
        var lane := if report.laneId.Some? && report.laneId.value != 0 then LaneNumber(report.laneId.value) else Unknown;
        if report.frame != "" {
          activeBorder := true;
        }
        accStatus := "ACCIDENT";
        if lastAccidentLane != Some(lane) || now - alertDismissedTime > RealertMs {
          bannerVisible := true;
          bannerLane := Some(lane);
          alertsPlayed := alertsPlayed + 1;
        }
        lastAccidentLane := Some(lane);
        accidentSeen := true;
      } else if accidentSeen {
        accStatus := "Clear";
        activeBorder := false;
      }
    }

    /** `ws.onmessage`: a message that does not parse changes nothing; otherwise the
        backend badge, then the lamps when the message carries signals, then the accident
        panel when it carries an accident. */
    method OnMessage(msg: DashMessage, now: int)
      requires Valid()
      modifies this, lamps
      ensures msg.Malformed? ==> unchanged(this) && unchanged(lamps)
      ensures msg.DashMessage? ==> badge == (if msg.backendConnected then "Backend Online" else "Backend Offline")
      ensures msg.DashMessage? && msg.signals.Some? ==>
                forall k :: 0 <= k < 4 ==> lamps[k] == SignalFor(msg.signals.value, k + 1)
      ensures msg.DashMessage? && msg.signals.None? ==> unchanged(lamps)
      ensures old(accidentSeen) ==> accidentSeen
      ensures wsRetry == old(wsRetry) && alertDismissedTime == old(alertDismissedTime)
      ensures msg.DashMessage? && msg.accident.Some? && msg.accident.value.status ==>
                var lane := LaneOfFeed(msg.accident.value);
                var raise := RaisesBanner(lane, old(lastAccidentLane), old(alertDismissedTime), now);
                && accStatus == "ACCIDENT"
                && activeBorder == (msg.accident.value.frame != "" || old(activeBorder))
                && bannerVisible == (raise || old(bannerVisible))
                && bannerLane == (if raise then Some(lane) else old(bannerLane))
                && alertsPlayed == old(alertsPlayed) + (if raise then 1 else 0)
                && lastAccidentLane == Some(lane)
                && accidentSeen
      ensures msg.DashMessage? && msg.accident.Some? && !msg.accident.value.status ==>
                && accStatus == (if old(accidentSeen) then "Clear" else old(accStatus))
                && activeBorder == (old(activeBorder) && !old(accidentSeen))
                && bannerVisible == old(bannerVisible) && bannerLane == old(bannerLane)
                && alertsPlayed == old(alertsPlayed)
                && lastAccidentLane == old(lastAccidentLane)
                && accidentSeen == old(accidentSeen)
      ensures msg.DashMessage? && msg.accident.None? ==>
                && accStatus == old(accStatus) && activeBorder == old(activeBorder)
                && bannerVisible == old(bannerVisible) && bannerLane == old(bannerLane)
                && alertsPlayed == old(alertsPlayed)
                && lastAccidentLane == old(lastAccidentLane)
                && accidentSeen == old(accidentSeen)
    {
      if msg.Malformed? {
        return;
      }
      badge := if msg.backendConnected then "Backend Online" else "Backend Offline";
      if msg.signals.Some? {
        UpdateSignals(msg.signals.value);
      }
      if msg.accident.Some? {
        UpdateAccident(msg.accident, now);
      }
    }
  }
}
