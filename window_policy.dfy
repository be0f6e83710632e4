/**
 * `_get_interval_settings`: which bar interval to download and which resample rule to
 * apply for each time-window button, and the decisions built on it (refetch on a window
 * change, the one-minute auto refresh).
 */
module WindowPolicy {
  import opened Wrappers
  import opened Calendar
  import opened Text
  import opened Resampling

  /** The interval passed to the data provider and the resample rule, if any. */
  datatype Settings = Settings(interval: string, rule: Option<string>)

  /** The window buttons, in the order the toolbar shows them. */
  const Windows: seq<string> := ["10Y", "5Y", "3Y", "2Y", "1Y", "YTD", "6M", "3M", "1M", "1WK", "1D"]

  /** YTD uses hourly bars while at most this many days have passed since 1 January. */
  const YtdHourlyDays: nat := 90

  /** The settings for `window`, as the chain of tests in the source decides them;
    * `daysIntoYear` is the number of days since 1 January of the local date when the
    * decision is taken (see YtdByDate; only YTD depends on it). */
  function IntervalSettings(window: string, daysIntoYear: nat): (r: Settings)
    ensures r.interval in {"1m", "5m", "1h", "1d"}
    ensures r.rule.Some? ==> r.interval in {"1d", "5m"}
  {
    if window == "10Y" then Settings("1d", Some("1ME"))
    else if window == "5Y" then Settings("1d", Some("1W"))
    else if window == "3Y" then Settings("1d", Some("3D"))
    else if window == "2Y" then Settings("1d", Some("2D"))
    else if window == "1WK" then Settings("5m", Some("10min"))
    else if window == "YTD" then
      Settings(if daysIntoYear <= YtdHourlyDays then "1h" else "1d", None)
    else if window == "1D" then Settings("1m", None)
    else if window == "1Y" || window == "6M" then Settings("1d", None)
    else if window == "3M" || window == "1M" || window == "1WK" then Settings("1h", None)
    else Settings("1d", None)
  }

  /** On a calendar date: YTD asks for hourly bars from 1 January through the 91st day
    * of the year (1 April, or 31 March in a leap year), and for daily bars after that. */
  lemma YtdByDate(today: DayNumber)
    ensures var jan1 := ToOrdinal(Date(FromOrdinal(today).year, 1, 1));
      jan1 <= today
      && (IntervalSettings("YTD", DaysSinceNewYear(today)).interval == "1h" <==> today <= jan1 + 90)
  {
    NewYearOrdinal(today);
    YtdThreshold(DaysSinceNewYear(today));
  }

  lemma YtdThreshold(days: nat)
    ensures IntervalSettings("YTD", days).interval == "1h" <==> days <= YtdHourlyDays
  {
  }

  /** The policy as a table, for every window whose settings do not depend on the date. */
  function FixedPolicy(window: string): Option<Settings> {
    match window
    case "10Y" => Some(Settings("1d", Some("1ME")))
    case "5Y" => Some(Settings("1d", Some("1W")))
    case "3Y" => Some(Settings("1d", Some("3D")))
    case "2Y" => Some(Settings("1d", Some("2D")))
    case "1Y" => Some(Settings("1d", None))
    case "6M" => Some(Settings("1d", None))
    case "3M" => Some(Settings("1h", None))
    case "1M" => Some(Settings("1h", None))
    case "1WK" => Some(Settings("5m", Some("10min")))
    case "1D" => Some(Settings("1m", None))
    case _ => None
  }

  /** The chain of tests agrees with the table; YTD is hourly exactly while at most 90
    * days have passed since 1 January, and any other name falls back to daily bars
    * without resampling. In particular 1WK is decided by its first test, so the later
    * test that would give it hourly bars never applies. */
  lemma PolicyMatchesTable(window: string, daysIntoYear: nat)
    ensures FixedPolicy(window).Some? ==> IntervalSettings(window, daysIntoYear) == FixedPolicy(window).value
    ensures window == "YTD" ==>
      IntervalSettings(window, daysIntoYear) ==
      Settings(if daysIntoYear <= 90 then "1h" else "1d", None)
    ensures FixedPolicy(window).None? && window != "YTD" ==> IntervalSettings(window, daysIntoYear) == Settings("1d", None)
    ensures IntervalSettings("1WK", daysIntoYear).interval != "1h"
  {
    if window in ["10Y", "5Y", "3Y", "2Y", "1WK", "YTD"] {
    } else if window in ["1D", "1Y", "6M", "3M", "1M"] {
    } else {
      assert FixedPolicy(window).None?;
    }
  }

  /** Every toolbar window has an entry in the table or is YTD. */
  lemma WindowsCovered(i: nat)
    requires i < |Windows|
    ensures FixedPolicy(Windows[i]).Some? || Windows[i] == "YTD"
  {
  }

  /** One-minute bars are asked for by the 1D window and by nothing else. */
  lemma MinuteBarsOnlyForOneDay(window: string, daysIntoYear: nat)
    ensures IntervalSettings(window, daysIntoYear).interval == "1m" <==> window == "1D"
  {
  }

  /** The rules the policy hands to the resampler never fall back and never divide by
    * zero: "2D" and "3D" group 2 and 3 bars, the others go to calendar resampling. */
  lemma PolicyRulesAreRouted(window: string, daysIntoYear: nat)
    ensures RouteOf(IntervalSettings(window, daysIntoYear).rule) ==
      if window == "3Y" then CountGroups(3)
      else if window == "2Y" then CountGroups(2)
      else if window == "10Y" then CalendarPeriods("1ME")
      else if window == "5Y" then CalendarPeriods("1W")
      else if window == "1WK" then CalendarPeriods("10min")
      else NoResampling
  {
    var rule := IntervalSettings(window, daysIntoYear).rule;
    if window == "3Y" {
      assert rule.value[..|rule.value| - 1] == NatText(3);
    } else if window == "2Y" {
      assert rule.value[..|rule.value| - 1] == NatText(2);
    } else if window == "10Y" {
      assert !EndsWithD("1ME");
    }
  }

  /** The rules the policy produces, and no rule at all. */
  const PolicyRules: set<Option<string>> := {None, Some("1ME"), Some("1W"), Some("3D"), Some("2D"), Some("10min")}

  /** Whether a rule is one the policy can produce. */
  predicate PolicyRule(rule: Option<string>) {
    rule in PolicyRules
  }

  /** A rule the policy can produce never takes the count path with a zero group size
    * and never falls back. */
  lemma PolicyRuleIsSafe(rule: Option<string>)
    requires PolicyRule(rule)
    ensures RouteOf(rule) != CountGroups(0) && RouteOf(rule) != CountFallback
  {
    if rule == Some("3D") {
      assert rule.value[..|rule.value| - 1] == NatText(3);
    } else if rule == Some("2D") {
      assert rule.value[..|rule.value| - 1] == NatText(2);
    } else if rule == Some("1ME") {
      assert !EndsWithD("1ME");
    }
  }

  lemma PolicyProducesPolicyRules(window: string, daysIntoYear: nat)
    ensures PolicyRule(IntervalSettings(window, daysIntoYear).rule)
  {
  }

  /** `on_window_change` downloads again exactly when the new window's interval differs
    * from the interval of the data on hand; otherwise it only re-runs the resampling. */
  predicate NeedsRefetch(window: string, daysIntoYear: nat, currentInterval: string)
    ensures currentInterval !in {"1m", "5m", "1h", "1d"} ==> NeedsRefetch(window, daysIntoYear, currentInterval)
    ensures window == "1D" ==> (NeedsRefetch(window, daysIntoYear, currentInterval) <==> currentInterval != "1m")
  {
    IntervalSettings(window, daysIntoYear).interval != currentInterval
  }

  /** Switching between two windows that share an interval never downloads, whatever
    * their rules. */
  lemma SameIntervalNoRefetch(a: string, b: string, daysIntoYear: nat)
    requires IntervalSettings(a, daysIntoYear).interval == IntervalSettings(b, daysIntoYear).interval
    ensures !NeedsRefetch(b, daysIntoYear, IntervalSettings(a, daysIntoYear).interval)
  {
  }

  /** Moving between 2Y and 3Y (daily data, different count rules) keeps the data and
    * regroups it; moving from 1D to any other window downloads. */
  lemma WindowSwitchExamples(daysIntoYear: nat, w: string)
    ensures !NeedsRefetch("3Y", daysIntoYear, IntervalSettings("2Y", daysIntoYear).interval)
    ensures w != "1D" ==> NeedsRefetch(w, daysIntoYear, IntervalSettings("1D", daysIntoYear).interval)
  {
    MinuteBarsOnlyForOneDay(w, daysIntoYear);
  }

  /** `_auto_refresh_loop`'s test: the toggle is on, a ticker has been loaded and the 1D
    * window is shown. */
  predicate ShouldAutoRefresh(enabled: bool, currentTicker: string, window: string)
    ensures ShouldAutoRefresh(enabled, currentTicker, window) ==> IntervalSettings(window, 0).interval == "1m"
  {
    enabled && currentTicker != "" && window == "1D"
  }

  /** An auto refresh always downloads one-minute bars without a resample rule. */
  lemma AutoRefreshFetchesMinuteBars(enabled: bool, currentTicker: string, window: string, daysIntoYear: nat)
    requires ShouldAutoRefresh(enabled, currentTicker, window)
    ensures IntervalSettings(window, daysIntoYear) == Settings("1m", None)
  {
  }
}
