/**
 * The insights page's reading of simulation and alert results: the message,
 * colour and early-warning banner chosen from the score change, and the
 * split of the alert feed into Critical and High lists.
 */
module InsightsPage {
  import opened Wrappers
  import opened Seqs
  import opened RiskEngine
  import opened RiskRecords
  import opened AlertRoutes

  /** The three colours of the change figure: alert red, radar green, secondary text. */
  datatype Tone = AlertRed | RadarGreen | Secondary

  function DeltaColor(delta: real): Tone
  {
    if delta > 0.0 then AlertRed else if delta < 0.0 then RadarGreen else Secondary
  }

  function DeltaMessage(delta: real): string
  {
    if delta > 15.0 then "SIGNIFICANT RISK ESCALATION"
    else if delta > 0.0 then "MODERATE RISK INCREASE"
    else if delta < -10.0 then "SIGNIFICANT RISK REDUCTION"
    else if delta < 0.0 then "MODERATE RISK DECREASE"
    else "NO SIGNIFICANT CHANGE"
  }

  /** The early-warning banner is rendered when `delta > 15`. */
  predicate ShowsEarlyWarning(delta: real)
  {
    delta > 15.0
  }

  /** The sign shown before the figure. */
  function SignPrefix(delta: real): string
  {
    if delta > 0.0 then "+" else ""
  }

  /** Each message belongs to exactly one band of `delta`. */
  lemma DeltaMessageBands(delta: real)
    ensures DeltaMessage(delta) == "SIGNIFICANT RISK ESCALATION" <==> delta > 15.0
    ensures DeltaMessage(delta) == "MODERATE RISK INCREASE" <==> 0.0 < delta <= 15.0
    ensures DeltaMessage(delta) == "SIGNIFICANT RISK REDUCTION" <==> delta < -10.0
    ensures DeltaMessage(delta) == "MODERATE RISK DECREASE" <==> -10.0 <= delta < 0.0
    ensures DeltaMessage(delta) == "NO SIGNIFICANT CHANGE" <==> delta == 0.0
  {
    var m := DeltaMessage(delta);
    assert "SIGNIFICANT RISK ESCALATION"[17] != "SIGNIFICANT RISK REDUCTION"[17];
    assert "MODERATE RISK INCREASE"[14] != "MODERATE RISK DECREASE"[14];
    assert "SIGNIFICANT RISK ESCALATION"[0] != "MODERATE RISK INCREASE"[0];
    assert "SIGNIFICANT RISK ESCALATION"[0] != "NO SIGNIFICANT CHANGE"[0];
    assert "MODERATE RISK INCREASE"[0] != "NO SIGNIFICANT CHANGE"[0];
    assert "SIGNIFICANT RISK REDUCTION"[0] != "MODERATE RISK DECREASE"[0];
    assert "SIGNIFICANT RISK REDUCTION"[0] != "NO SIGNIFICANT CHANGE"[0];
    assert "MODERATE RISK DECREASE"[0] != "NO SIGNIFICANT CHANGE"[0];
    assert "SIGNIFICANT RISK ESCALATION"[0] == "SIGNIFICANT RISK REDUCTION"[0];
  }

  /** Red exactly for a rise, green exactly for a fall; the banner exactly with the escalation message. */
  lemma DeltaColorAndWarning(delta: real)
    ensures DeltaColor(delta) == AlertRed <==> delta > 0.0
    ensures DeltaColor(delta) == RadarGreen <==> delta < 0.0
    ensures DeltaColor(delta) == Secondary <==> delta == 0.0
    ensures ShowsEarlyWarning(delta) <==> DeltaMessage(delta) == "SIGNIFICANT RISK ESCALATION"
    ensures ShowsEarlyWarning(delta) ==> DeltaColor(delta) == AlertRed && SignPrefix(delta) == "+"
    ensures SignPrefix(delta) == "+" <==> DeltaColor(delta) == AlertRed
  {
    DeltaMessageBands(delta);
  }

  /** `alertsRes?.data || []`. */
  function AlertsOf(data: Option<seq<Alert>>): seq<Alert>
  {
    if data.Some? then data.value else []
  }

  function HasTier(t: Tier): Alert -> bool
  {
    (a: Alert) => a.record.riskTier == t
  }

  /** `alerts.filter(a => a.riskTier === 'Critical')`. */
  function CriticalAlerts(alerts: seq<Alert>): seq<Alert>
  {
    Filter(alerts, HasTier(Critical))
  }

  /** `alerts.filter(a => a.riskTier === 'High')`. */
  function HighAlerts(alerts: seq<Alert>): seq<Alert>
  {
    Filter(alerts, HasTier(High))
  }

  function CountTier(alerts: seq<Alert>, t: Tier): nat
  {
    |Filter(alerts, HasTier(t))|
  }

  lemma {:induction false} SplitCounts(alerts: seq<Alert>)
    ensures CountTier(alerts, Critical) + CountTier(alerts, High) + CountTier(alerts, Moderate) + CountTier(alerts, Low) == |alerts|
  {
    if alerts != [] {
      var tl, t := alerts[1..], alerts[0].record.riskTier;
      SplitCounts(tl);
      assert CountTier(alerts, Critical) == (if t == Critical then 1 else 0) + CountTier(tl, Critical);
      assert CountTier(alerts, High) == (if t == High then 1 else 0) + CountTier(tl, High);
      assert CountTier(alerts, Moderate) == (if t == Moderate then 1 else 0) + CountTier(tl, Moderate);
      assert CountTier(alerts, Low) == (if t == Low then 1 else 0) + CountTier(tl, Low);
    }
  }

  /** The two lists are disjoint, order-keeping sub-lists, they hold every Critical and High alert, and no alert of another tier. */
  lemma AlertSplit(alerts: seq<Alert>)
    ensures forall a :: a in CriticalAlerts(alerts) ==> a !in HighAlerts(alerts)
    ensures IsSubsequence(CriticalAlerts(alerts), alerts) && IsSubsequence(HighAlerts(alerts), alerts)
    ensures forall a :: a in alerts ==>
              (a in CriticalAlerts(alerts) <==> a.record.riskTier == Critical) &&
              (a in HighAlerts(alerts) <==> a.record.riskTier == High)
    ensures |CriticalAlerts(alerts)| + |HighAlerts(alerts)| <= |alerts|
  {
    FilterIsSubsequence(alerts, HasTier(Critical));
    FilterIsSubsequence(alerts, HasTier(High));
    SplitCounts(alerts);
  }

  /** The page asks for the feed at threshold 60: every alert listed scores at least 60. */
  lemma InsightsAlertsAboveSixty(recs: seq<Record>, countries: seq<Country>, a: Alert)
    requires a in CriticalAlerts(AlertFeed(recs, countries, 60.0)) || a in HighAlerts(AlertFeed(recs, countries, 60.0))
    ensures a.record.overallConflictProb >= 60.0
    ensures IsLatestIn(a.record, recs, ByYearMonth)
  {
    AlertFeedSound(recs, countries, 60.0, a);
  }
}
