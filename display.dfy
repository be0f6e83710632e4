/**
 * What `update_chart` puts on screen: `_filter_data_by_window` keeps the bars from the
 * window's start date on, and the 1D window re-indexes the result onto the regular
 * session's one-minute grid, 09:30 to 16:00 inclusive, leaving gaps where no bar exists.
 */
module Display {
  import opened Wrappers
  import opened Calendar
  import opened Bars

  /** 09:30 as seconds after midnight. */
  const SessionOpen: nat := 34200
  /** One-minute slots from 09:30 to 16:00, both ends included. */
  const SessionSlots: nat := 391
  const SecondsPerMinute: nat := 60
  const SecondsPerWeek: nat := 604800

  /** The months `DateOffset` subtracts for the windows measured in months or years. */
  function MonthsBack(window: string): (k: Option<nat>)
    ensures k.Some? ==> k.value >= 1
  {
    if window == "10Y" then Some(120)
    else if window == "5Y" then Some(60)
    else if window == "3Y" then Some(36)
    else if window == "2Y" then Some(24)
    else if window == "1Y" then Some(12)
    else if window == "6M" then Some(6)
    else if window == "3M" then Some(3)
    else if window == "1M" then Some(1)
    else None
  }

  /** The first instant the window shows, given the series' earliest and latest
    * timestamps. It never lies after the latest one. */
  function WindowStart(window: string, first: Instant, last: Instant): (c: int)
    requires first <= last
    ensures c <= last
    ensures window == "1WK" ==> c == last - SecondsPerWeek
    ensures window == "YTD" ==> c == StartOfYear(last)
    ensures MonthsBack(window).Some? ==> c == MonthsBefore(last, MonthsBack(window).value)
    ensures MonthsBack(window).None? && window != "YTD" && window != "1WK" ==> c == first
  {
    match MonthsBack(window)
    case Some(k) => MonthsBefore(last, k)
    case None =>
      if window == "YTD" then StartOfYear(last)
      else if window == "1WK" then last - SecondsPerWeek
      else first
  }

  /** The bars at or after `cutoff`, in their original order. */
  function KeepFrom(s: seq<Bar>, cutoff: int): (r: seq<Bar>)
    ensures |r| <= |s|
    ensures forall b :: b in r <==> b in s && b.time >= cutoff
    decreases |s|
  {
    if s == [] then []
    else
      var rest := KeepFrom(s[1..], cutoff);
      assert forall b :: b in s <==> b == s[0] || b in s[1..];
      if s[0].time >= cutoff then [s[0]] + rest else rest
  }

  /** On a strictly increasing series the kept bars are a suffix: everything from the
    * first bar at or after the cutoff. */
  lemma {:induction false} KeepFromIsSuffix(s: seq<Bar>, cutoff: int) returns (k: nat)
    requires StrictlyIncreasing(s)
    ensures k <= |s| && KeepFrom(s, cutoff) == s[k..]
    ensures forall j :: 0 <= j < k ==> s[j].time < cutoff
    decreases |s|
  {
    if s == [] {
      k := 0;
    } else if s[0].time >= cutoff {
      k := 0;
      var rest := KeepFromIsSuffix(s[1..], cutoff);
      if rest > 0 {
        assert false;
      }
      assert s == [s[0]] + s[1..];
    } else {
      var rest := KeepFromIsSuffix(s[1..], cutoff);
      k := rest + 1;
      assert s[k..] == s[1..][rest..];
      forall j | 0 <= j < k
        ensures s[j].time < cutoff
      {
        if j > 0 {
          assert s[j] == s[1..][j - 1];
        }
      }
    }
  }

  /** `_filter_data_by_window`. An empty series stays empty. */
  function FilterByWindow(s: seq<Bar>, window: string): (r: seq<Bar>)
    ensures |r| <= |s|
    ensures forall b :: b in r ==> b in s
  {
    if s == [] then []
    else KeepFrom(s, WindowStart(window, MinTime(s), MaxTime(s)))
  }

  lemma FirstBeforeLast(s: seq<Bar>)
    requires |s| > 0
    ensures MinTime(s) <= MaxTime(s)
  {
    MinTimeIsMinimum(s);
    MaxTimeIsMaximum(s);
  }

  /** The latest bar always survives the filter, so a non-empty series never filters to
    * nothing; the 1D window and unknown window names keep every bar. */
  lemma FilterKeepsLatest(s: seq<Bar>, window: string)
    requires |s| > 0
    ensures exists b :: b in FilterByWindow(s, window) && b.time == MaxTime(s)
    ensures MonthsBack(window).None? && window != "YTD" && window != "1WK" ==>
      forall b :: b in FilterByWindow(s, window) <==> b in s
  {
    FirstBeforeLast(s);
    MaxTimeIsMaximum(s);
    MinTimeIsMinimum(s);
    var i :| 0 <= i < |s| && s[i].time == MaxTime(s);
    assert s[i] in FilterByWindow(s, window);
  }

  /** The filter keeps exactly the bars at or after the window's start, which the
    * postcondition of WindowStart spells out per window: midnight of 1 January of the
    * latest bar's year for YTD, seven days before it for 1WK, the same wall-clock time
    * k months earlier for the windows measured in months or years. */
  lemma FilterCutoff(s: seq<Bar>, window: string, b: Bar)
    requires |s| > 0
    ensures b in FilterByWindow(s, window) <==> b in s && b.time >= WindowStart(window, MinTime(s), MaxTime(s))
  {
    FirstBeforeLast(s);
  }

  /** The instant of grid slot `k` on day `day`: 09:30 plus `k` minutes. */
  function GridTime(day: DayNumber, k: nat): Instant {
    StartOfDay(day) + SessionOpen + SecondsPerMinute * k
  }

  /** The bar with timestamp `t`, if any (the first one, should there be several). */
  function BarAt(s: seq<Bar>, t: Instant): (r: Option<Bar>)
    ensures r.Some? ==> r.value in s && r.value.time == t
    ensures r.None? <==> forall i :: 0 <= i < |s| ==> s[i].time != t
    decreases |s|
  {
    if s == [] then None
    else if s[0].time == t then Some(s[0])
    else
      var r := BarAt(s[1..], t);
      assert forall i :: 1 <= i < |s| ==> s[i] == s[1..][i - 1];
      r
  }

  /** What the chart shows: one timestamp per x position and the bar there, or a gap. */
  datatype Chart = Chart(dates: seq<Instant>, rows: seq<Option<Bar>>)

  predicate Aligned(c: Chart) {
    |c.dates| == |c.rows| &&
    forall i :: 0 <= i < |c.rows| ==> c.rows[i].Some? ==> c.rows[i].value.time == c.dates[i]
  }

  /** The filtered bars shown one per position, without gaps. */
  function Gapless(s: seq<Bar>): (c: Chart)
    ensures Aligned(c) && |c.rows| == |s|
    ensures forall i :: 0 <= i < |s| ==> c.rows[i] == Some(s[i])
  {
    Chart(Times(s), seq(|s|, i requires 0 <= i < |s| => Some(s[i])))
  }

  /** `df.reindex(full_index)` onto the session grid of the day of the earliest bar. A
    * series with a repeated timestamp cannot be re-indexed; the exception is caught and
    * the bars are shown as they are. */
  function SessionGrid(s: seq<Bar>): (c: Chart)
    requires |s| > 0
    ensures Aligned(c)
  {
    if HasDuplicateTimes(s) then Gapless(s)
    else
      var day := DayOf(MinTime(s));
      Chart(seq(SessionSlots, k requires 0 <= k < SessionSlots => GridTime(day, k)),
            seq(SessionSlots, k requires 0 <= k < SessionSlots => BarAt(s, GridTime(day, k))))
  }

  /** On a series without repeated timestamps the grid has 391 slots, from 09:30 to 16:00
    * of the first bar's day. */
  lemma SessionGridSpan(s: seq<Bar>)
    requires |s| > 0 && !HasDuplicateTimes(s)
    ensures var c := SessionGrid(s);
      |c.dates| == SessionSlots && |c.rows| == SessionSlots
      && c.dates[0] == StartOfDay(DayOf(MinTime(s))) + 9 * 3600 + 30 * 60
      && c.dates[SessionSlots - 1] == StartOfDay(DayOf(MinTime(s))) + 16 * 3600
  {
  }

  /** A slot holds the bar with the slot's timestamp exactly when there is one. */
  lemma SessionGridSlot(s: seq<Bar>, k: nat)
    requires |s| > 0 && !HasDuplicateTimes(s) && k < SessionSlots
    ensures SessionGrid(s).rows[k].Some? <==> exists i :: 0 <= i < |s| && s[i].time == SessionGrid(s).dates[k]
    ensures SessionGrid(s).rows[k].Some? ==> SessionGrid(s).rows[k].value in s
  {
  }

  /** A bar whose timestamp is off the grid is not shown. */
  lemma SessionGridDropsOffGrid(s: seq<Bar>, b: Bar)
    requires |s| > 0 && !HasDuplicateTimes(s) && b in s
    requires forall j :: 0 <= j < SessionSlots ==> b.time != GridTime(DayOf(MinTime(s)), j)
    ensures Some(b) !in SessionGrid(s).rows
  {
  }

  /** The grid's timestamps rise a minute at a time. */
  lemma SessionGridIncreasing(s: seq<Bar>, i: nat, j: nat)
    requires |s| > 0 && !HasDuplicateTimes(s) && i < j < SessionSlots
    ensures SessionGrid(s).dates[j] - SessionGrid(s).dates[i] == SecondsPerMinute * (j - i)
  {
  }

  /** The chart `update_chart` draws for the window, or None where it returns early
    * because there is nothing to draw. */
  function ChartView(history: seq<Bar>, window: string): (c: Option<Chart>)
    ensures c.Some? ==> Aligned(c.value) && |c.value.dates| > 0
  {
    var shown := FilterByWindow(history, window);
    if shown == [] then None
    else if window == "1D" then Some(SessionGrid(shown))
    else Some(Gapless(shown))
  }

  /** The chart is drawn whenever there is history, and outside 1D it shows exactly the
    * filtered bars, in order. */
  lemma ChartViewDrawn(history: seq<Bar>, window: string)
    requires |history| > 0
    ensures ChartView(history, window).Some?
    ensures window != "1D" ==> ChartView(history, window).value == Gapless(FilterByWindow(history, window))
  {
    FilterKeepsLatest(history, window);
  }
}
