/**
 * The alerts page: the alert list narrowed by exact severity and status
 * filters, and the danger / warning / info counts shown above it, which
 * are always taken over all alerts.
 */
module Alerts {
  import opened Seqs

  /** The alert fields the page filters and counts on. */
  datatype Alert = Alert(severity: string, status: string)

  function SeverityIs(severity: string): Alert -> bool
  {
    (a: Alert) => a.severity == severity
  }

  function StatusIs(status: string): Alert -> bool
  {
    (a: Alert) => a.status == status
  }

  /** `filteredData`: severity, then status; an empty filter value is no filter. */
  function FilteredData(alerts: seq<Alert>, severityFilter: string, statusFilter: string): seq<Alert>
  {
    var bySeverity := FilterIf(alerts, severityFilter != "", SeverityIs(severityFilter));
    FilterIf(bySeverity, statusFilter != "", StatusIs(statusFilter))
  }

  /** The reference definition: an alert is listed when it passes both active filters. */
  predicate Listed(a: Alert, severityFilter: string, statusFilter: string)
  {
    && (severityFilter == "" || a.severity == severityFilter)
    && (statusFilter == "" || a.status == statusFilter)
  }

  function ListedMatcher(severityFilter: string, statusFilter: string): Alert -> bool
  {
    (a: Alert) => Listed(a, severityFilter, statusFilter)
  }

  lemma FilteredDataIsListed(alerts: seq<Alert>, severityFilter: string, statusFilter: string)
    ensures FilteredData(alerts, severityFilter, statusFilter) == Filter(alerts, ListedMatcher(severityFilter, statusFilter))
  {
    var s1 := (a: Alert) => severityFilter == "" || a.severity == severityFilter;
    FilterIfIsFilter(alerts, severityFilter != "", SeverityIs(severityFilter), s1);
    FilterIfAfter(alerts, s1, statusFilter != "", StatusIs(statusFilter), ListedMatcher(severityFilter, statusFilter));
  }

  /**
   * An alert is listed exactly when it occurs in the data and passes both
   * active filters; the list keeps the data's order.
   */
  lemma FilteredDataMembership(alerts: seq<Alert>, severityFilter: string, statusFilter: string, a: Alert)
    ensures a in FilteredData(alerts, severityFilter, statusFilter) <==> a in alerts && Listed(a, severityFilter, statusFilter)
    ensures IsSubsequence(FilteredData(alerts, severityFilter, statusFilter), alerts)
  {
    FilteredDataIsListed(alerts, severityFilter, statusFilter);
    FilterMembership(alerts, ListedMatcher(severityFilter, statusFilter), a);
    FilterIsSubsequence(alerts, ListedMatcher(severityFilter, statusFilter));
  }

  // ---------------------------------------------------------------- counts

  datatype Stats = Stats(danger: nat, warn: nat, info: nat)

  /** The three stat cards; they take no filter, so the filters never move them. */
  function Counts(alerts: seq<Alert>): Stats
  {
    Stats(|Filter(alerts, SeverityIs("danger"))|,
          |Filter(alerts, SeverityIs("warn"))|,
          |Filter(alerts, SeverityIs("info"))|)
  }

  predicate KnownSeverity(a: Alert)
  {
    a.severity == "danger" || a.severity == "warn" || a.severity == "info"
  }

  predicate DangerOrWarn(a: Alert)
  {
    a.severity == "danger" || a.severity == "warn"
  }

  /**
   * The three counts together are the number of alerts of a known
   * severity, so never more than the number of alerts.
   */
  lemma CountsAddUp(alerts: seq<Alert>)
    ensures var c := Counts(alerts);
      && c.danger + c.warn + c.info == |Filter(alerts, KnownSeverity)|
      && c.danger + c.warn + c.info <= |alerts|
  {
    FilterCountSplit(alerts, SeverityIs("danger"), SeverityIs("warn"), DangerOrWarn);
    FilterCountSplit(alerts, DangerOrWarn, SeverityIs("info"), KnownSeverity);
  }

  /** When every alert has one of the three severities, the counts add up to all alerts. */
  lemma CountsCoverKnownSeverities(alerts: seq<Alert>)
    requires forall i :: 0 <= i < |alerts| ==> KnownSeverity(alerts[i])
    ensures var c := Counts(alerts); c.danger + c.warn + c.info == |alerts|
  {
    CountsAddUp(alerts);
    FilterKeepsAll(alerts, KnownSeverity);
  }

  /**
   * Filtering by a severity lists exactly as many alerts as its card
   * shows when no status is chosen, and no more than that when one is.
   */
  lemma SeverityFilterAgreesWithCard(alerts: seq<Alert>, statusFilter: string)
    ensures |FilteredData(alerts, "danger", "")| == Counts(alerts).danger
    ensures |FilteredData(alerts, "danger", statusFilter)| <= Counts(alerts).danger
    ensures |FilteredData(alerts, "warn", statusFilter)| <= Counts(alerts).warn
    ensures |FilteredData(alerts, "info", statusFilter)| <= Counts(alerts).info
  {
    FilteredDataIsListed(alerts, "danger", statusFilter);
    FilterStrongerKeepsFewer(alerts, ListedMatcher("danger", statusFilter), SeverityIs("danger"));
    FilteredDataIsListed(alerts, "warn", statusFilter);
    FilterStrongerKeepsFewer(alerts, ListedMatcher("warn", statusFilter), SeverityIs("warn"));
    FilteredDataIsListed(alerts, "info", statusFilter);
    FilterStrongerKeepsFewer(alerts, ListedMatcher("info", statusFilter), SeverityIs("info"));
  }
}
