/** The alert banner above the dashboard: an all-clear message when nothing
    is overdue, otherwise a warning, urgent or critical alert by count. */
module AlertBar {
  import opened Applicants

  datatype Severity = Warning | Urgent | Critical

  /** `getAlertSeverity`: thresholds checked highest first. */
  function AlertSeverity(count: int): (s: Severity)
    ensures s == Critical <==> count >= 5
    ensures s == Urgent <==> 3 <= count < 5
    ensures s == Warning <==> count < 3
  {
    if count >= 5 then Critical
    else if count >= 3 then Urgent
    else Warning
  }

  /** The order of the tiers: warning < urgent < critical. */
  function Rank(s: Severity): nat
  {
    match s
    case Warning => 1
    case Urgent => 2
    case Critical => 3
  }

  /** A larger count never gets a lower tier. */
  lemma AlertSeverityMonotone(a: int, b: int)
    requires a <= b
    ensures Rank(AlertSeverity(a)) <= Rank(AlertSeverity(b))
  {
  }

  /** The `alertClasses` table. */
  function AlertClass(s: Severity): string
  {
    match s
    case Warning => "alert-warning"
    case Urgent => "alert-urgent"
    case Critical => "alert-critical"
  }

  /** The `icons` table. */
  function AlertIcon(s: Severity): Icon
  {
    match s
    case Warning => Clock
    case Urgent => AlertTriangle
    case Critical => AlertCircle
  }

  /** Each tier is told apart by both its class and its icon, and no tier
      uses the all-clear icon. */
  lemma TiersDistinguishable(s1: Severity, s2: Severity)
    requires s1 != s2
    ensures AlertClass(s1) != AlertClass(s2)
    ensures AlertIcon(s1) != AlertIcon(s2)
    ensures AlertIcon(s1) != CheckCircle
  {
  }

  /** What the bar renders for an overdue count: the all-clear message with
      its icon, or an alert. */
  datatype Banner = AllClear(icon: Icon) | Alert(severity: Severity, cssClass: string, icon: Icon, count: int)

  function RenderAlertBar(overdueCount: int): (b: Banner)
    ensures b.AllClear? <==> overdueCount == 0
    ensures b.AllClear? ==> b.icon == CheckCircle
    ensures b.Alert? ==> b.count == overdueCount
    ensures b.Alert? ==> b.severity == AlertSeverity(overdueCount)
    ensures b.Alert? ==> b.cssClass == AlertClass(b.severity) && b.icon == AlertIcon(b.severity)
  {
    if overdueCount == 0 then AllClear(CheckCircle)
    else
      var s := AlertSeverity(overdueCount);
      Alert(s, AlertClass(s), AlertIcon(s), overdueCount)
  }

  /** How alarming a banner is: the all-clear below every tier. */
  function BannerLevel(b: Banner): nat
  {
    match b
    case AllClear(_) => 0
    case Alert(s, _, _, _) => Rank(s)
  }

  /** For counts of applicants (never negative) the banner only grows more
      alarming as the count grows, and any overdue applicant raises at least
      a warning. */
  lemma BannerMonotone(a: nat, b: nat)
    requires a <= b
    ensures BannerLevel(RenderAlertBar(a)) <= BannerLevel(RenderAlertBar(b))
    ensures b > 0 ==> BannerLevel(RenderAlertBar(b)) >= Rank(Warning)
  {
  }
}
