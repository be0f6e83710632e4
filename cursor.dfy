/**
 * `_update_crosshair`: which chart position the cursor is on, the date label shown above
 * the price panel, and the volume label.
 */
module Cursor {
  import opened Wrappers
  import opened Calendar
  import opened Text
  import opened Bars
  import opened Resampling
  import opened Indicators
  import opened Display

  /** How many rows carry timestamp `t`. */
  function CountAt(s: seq<Bar>, t: Instant): (c: nat)
    ensures c > 0 <==> exists i :: 0 <= i < |s| && s[i].time == t
    decreases |s|
  {
    if s == [] then 0
    else
      var rest := CountAt(s[1..], t);
      assert forall i :: 1 <= i < |s| ==> s[i] == s[1..][i - 1];
      (if s[0].time == t then 1 else 0) + rest
  }

  /** `history_df.loc[t]` where it yields a single row; None where it raises (no row) or
    * yields a frame (several rows), both of which the label code answers with the date
    * alone. */
  function RowAt(s: seq<Bar>, t: Instant): (r: Option<Bar>)
    ensures r.Some? ==> r.value in s && r.value.time == t
    ensures r.Some? <==> CountAt(s, t) == 1
  {
    if CountAt(s, t) == 1 then BarAt(s, t) else None
  }

  /** In a strictly increasing series every row is found by its own timestamp. */
  lemma {:induction false} RowAtOfIncreasing(s: seq<Bar>, g: nat)
    requires StrictlyIncreasing(s) && g < |s|
    ensures RowAt(s, s[g].time) == Some(s[g])
    decreases |s|
  {
    var t := s[g].time;
    assert forall i :: 1 <= i < |s| ==> s[i] == s[1..][i - 1];
    if g == 0 {
      assert forall i :: 0 <= i < |s| - 1 ==> s[1..][i].time > t;
      assert CountAt(s[1..], t) == 0;
    } else {
      assert s[0].time < t;
      RowAtOfIncreasing(s[1..], g - 1);
    }
  }

  /** The date label, before it is written out. */
  datatype DateLabel =
    | WeekRange(monday: DayNumber)           // Monday to Friday of the cursor's week
    | MonthRange(year: int, month: int)      // first to last day of the cursor's month
    | PeriodRange(start: Instant, end: Instant)  // a regrouped bar's first to last day
    | DayAndTime(t: Instant)
    | DayOnly(t: Instant)

  predicate Renderable(l: DateLabel) {
    l.MonthRange? ==> l.year >= 1 && 1 <= l.month <= 12
  }

  /** The label rules, tried in order: weekly data or the 5Y window; monthly data or the
    * 10Y window; the 2Y and 3Y windows, which look the row up in the history; an interval
    * with an 'm' or an 'h' in it; anything else. */
  function Label(interval: string, window: string, history: seq<Bar>, t: Instant): (l: DateLabel)
    ensures Renderable(l)
  {
    var day := DayOf(t);
    if interval == "1wk" || window == "5Y" then WeekRange(day - Weekday(day))
    else if interval == "1mo" || window == "10Y" then MonthRange(DateOf(t).year, DateOf(t).month)
    else if window == "2Y" || window == "3Y" then
      match RowAt(history, t)
      case Some(row) => if row.periodStart.Some? then PeriodRange(row.periodStart.value, t) else DayOnly(t)
      case None => DayOnly(t)
    else if 'm' in interval || 'h' in interval then DayAndTime(t)
    else DayOnly(t)
  }

  /** The label's text: dates as `%Y-%m-%d`, ranges joined by " / ", a time as `%H:%M`
    * after a space. A single day's label is its date text alone, and every label starts
    * with the date text of the first day it names. */
  function LabelText(l: DateLabel): (r: string)
    requires Renderable(l)
    ensures l.DayOnly? ==> r == DateText(DateOf(l.t))
    ensures l.DayAndTime? ==> r == DateText(DateOf(l.t)) + " " + ClockText(SecondOfDay(l.t))
    ensures l.WeekRange? ==> DateText(FromOrdinal(l.monday)) + " / " <= r
    ensures l.MonthRange? ==> DateText(Date(l.year, l.month, 1)) + " / " <= r
    ensures l.PeriodRange? ==> DateText(DateOf(l.start)) + " / " <= r
  {
    match l
    case WeekRange(monday) => DateText(FromOrdinal(monday)) + " / " + DateText(FromOrdinal(monday + 4))
    case MonthRange(y, m) => DateText(Date(y, m, 1)) + " / " + DateText(Date(y, m, DaysInMonth(y, m)))
    case PeriodRange(start, end) => DateText(DateOf(start)) + " / " + DateText(DateOf(end))
    case DayAndTime(t) => DateText(DateOf(t)) + " " + ClockText(SecondOfDay(t))
    case DayOnly(t) => DateText(DateOf(t))
  }

  /** The weekly label runs from the Monday of the cursor's week to that week's Friday. */
  lemma WeekLabel(interval: string, window: string, history: seq<Bar>, t: Instant)
    requires interval == "1wk" || window == "5Y"
    ensures var l := Label(interval, window, history, t);
      l.WeekRange? && Weekday(l.monday) == 0 && Weekday(l.monday + 4) == 4
      && l.monday <= DayOf(t) <= l.monday + 6
  {
  }

  /** The monthly label runs from the 1st to the last day of the cursor's month. */
  lemma MonthLabel(interval: string, window: string, history: seq<Bar>, t: Instant)
    requires interval != "1wk" && window != "5Y"
    requires interval == "1mo" || window == "10Y"
    ensures var l := Label(interval, window, history, t);
      l.MonthRange? && l.year == DateOf(t).year && l.month == DateOf(t).month
      && ToOrdinal(Date(l.year, l.month, 1)) <= DayOf(t) <= ToOrdinal(Date(l.year, l.month, DaysInMonth(l.year, l.month)))
  {
  }

  /** On the 2Y and 3Y windows the history is the count-regrouped series (with its moving
    * averages), and the label of each regrouped bar runs from the first to the last
    * trading day it covers. */
  lemma RegroupedBarLabel(raw: seq<Bar>, n: nat, g: nat, interval: string, window: string)
    requires n >= 1 && StrictlyIncreasing(raw) && g < |CountResample(raw, n)|
    requires window == "2Y" || window == "3Y"
    requires interval != "1wk" && interval != "1mo"
    ensures var h := WithMovingAverages(CountResample(raw, n));
      g * n < |raw| && Label(interval, window, h, h[g].time) == PeriodRange(raw[g * n].time, h[g].time)
  {
    var r := CountResample(raw, n);
    var h := WithMovingAverages(r);
    CountResampleOrdered(raw, n);
    forall i | 0 <= i < |h| ensures h[i].time == r[i].time && h[i].periodStart == r[i].periodStart {
      MovingAveragesOnlyAddColumns(r, i, 0);
    }
    assert StrictlyIncreasing(h);
    RowAtOfIncreasing(h, g);
    CountResampleGroup(raw, n, g);
  }

  /** Intraday intervals ("1m", "5m", "1h", ...) show the time of day outside the 5Y, 10Y,
    * 2Y and 3Y windows; daily data shows the date alone. */
  lemma IntradayLabels(interval: string, window: string, history: seq<Bar>, t: Instant)
    requires window != "5Y" && window != "10Y" && window != "2Y" && window != "3Y"
    ensures interval in ["1m", "5m", "1h"] ==> Label(interval, window, history, t) == DayAndTime(t)
    ensures interval == "1d" ==> Label(interval, window, history, t) == DayOnly(t)
  {
    if interval in ["1m", "5m", "1h"] {
      assert 'm' in interval || 'h' in interval;
    }
  }

  /** What the volume label shows: a volume, nothing, or an IndexError that ends the
    * handler. */
  datatype VolumeReading = ShowsVolume(volume: real) | NoVolume | IndexError

  /** The lookup as the code writes it: `history_df['volume'].iloc[safe_idx]`, the row at
    * the display position in the unfiltered history. */
  function VolumeAsWritten(history: seq<Bar>, idx: nat): (v: VolumeReading)
    ensures v.IndexError? <==> idx >= |history|
    ensures idx < |history| ==> v == ShowsVolume(history[idx].volume)
  {
    if idx < |history| then ShowsVolume(history[idx].volume) else IndexError
  }

  /** The volume of the bar drawn at the position, none in a gap of the 1D grid. */
  function VolumeUnderCursor(rows: seq<Option<Bar>>, idx: nat): (v: VolumeReading)
    requires idx < |rows|
    ensures !v.IndexError?
    ensures v.ShowsVolume? <==> rows[idx].Some?
    ensures rows[idx].Some? ==> v.volume == rows[idx].value.volume
  {
    match rows[idx]
    case Some(b) => ShowsVolume(b.volume)
    case None => NoVolume
  }

  /** When the window drops the first `k` bars of a strictly increasing history, the
    * lookup as written reads the bar `k` positions before the one drawn. */
  lemma AsWrittenReadsEarlierBar(history: seq<Bar>, window: string, idx: nat) returns (k: nat)
    requires StrictlyIncreasing(history) && window != "1D"
    requires ChartView(history, window).Some?
    requires idx < |ChartView(history, window).value.rows|
    ensures k + idx < |history|
    ensures VolumeUnderCursor(ChartView(history, window).value.rows, idx) == ShowsVolume(history[k + idx].volume)
    ensures VolumeAsWritten(history, idx) == ShowsVolume(history[idx].volume)
    ensures k == 0 <==> FilterByWindow(history, window) == history
  {
    var shown := FilterByWindow(history, window);
    k := KeepFromIsSuffix(history, WindowStart(window, MinTime(history), MaxTime(history)));
    assert shown == history[k..];
    assert shown[idx] == history[k + idx];
    if shown == history {
      assert |history[k..]| == |history|;
    }
  }

  /** Where the window keeps every bar (and the 1D grid is not in use) the two lookups
    * agree. */
  lemma VolumeLookupsAgree(history: seq<Bar>, window: string, idx: nat)
    requires window != "1D" && |history| > 0 && FilterByWindow(history, window) == history
    requires idx < |history|
    ensures ChartView(history, window).Some?
    ensures VolumeAsWritten(history, idx) == VolumeUnderCursor(ChartView(history, window).value.rows, idx)
  {
    ChartViewDrawn(history, window);
  }

  /** Three daily bars on days 0, 8 and 9 in the 1WK window: only the last two are drawn,
    * and with the cursor on the first drawn bar (volume 20) the label shows the volume of
    * the bar the window cut off (10). */
  lemma VolumeLookupMismatch()
    ensures var history := [ProviderBar(0, 1.0, 1.0, 1.0, 1.0, 10.0),
                            ProviderBar(8 * SecondsPerDay, 1.0, 1.0, 1.0, 1.0, 20.0),
                            ProviderBar(9 * SecondsPerDay, 1.0, 1.0, 1.0, 1.0, 30.0)];
      ChartView(history, "1WK").Some?
      && |ChartView(history, "1WK").value.rows| == 2
      && VolumeUnderCursor(ChartView(history, "1WK").value.rows, 0) == ShowsVolume(20.0)
      && VolumeAsWritten(history, 0) == ShowsVolume(10.0)
  {
    var history := [ProviderBar(0, 1.0, 1.0, 1.0, 1.0, 10.0),
                    ProviderBar(8 * SecondsPerDay, 1.0, 1.0, 1.0, 1.0, 20.0),
                    ProviderBar(9 * SecondsPerDay, 1.0, 1.0, 1.0, 1.0, 30.0)];
    MinTimeIsMinimum(history);
    MaxTimeIsMaximum(history);
    assert history[0].time == 0 && history[1].time == 8 * SecondsPerDay && history[2].time == 9 * SecondsPerDay;
    assert history[2].time <= MaxTime(history);
    assert MinTime(history) <= history[0].time;
    assert MaxTime(history) == 9 * SecondsPerDay;
    var cutoff := WindowStart("1WK", 0, 9 * SecondsPerDay);
    assert cutoff == 2 * SecondsPerDay;
    assert history[1..][1..] == [history[2]];
    assert KeepFrom(history, cutoff) == [history[1], history[2]];
  }

  /** One crosshair update: the position read, the date label's text and the volume label. */
  datatype Readout = Readout(index: nat, text: string, volume: VolumeReading)

  /** `_update_crosshair` over the chart's dates, with the volume read as the code reads
    * it: from the unfiltered history at the cursor's position; None where there are no
    * dates to index. */
  function CursorReadout(x: int, dates: seq<Instant>, interval: string, window: string,
                         history: seq<Bar>, showVolume: bool): (r: Option<Readout>)
    ensures r.None? <==> dates == []
    ensures r.Some? ==> r.value.index < |dates| && (0 <= x < |dates| ==> r.value.index == x)
    ensures r.Some? && x < 0 ==> r.value.index == 0
    ensures r.Some? && x >= |dates| ==> r.value.index == |dates| - 1
    ensures r.Some? ==> r.value.text == LabelText(Label(interval, window, history, dates[r.value.index]))
    ensures r.Some? && showVolume ==> r.value.volume == VolumeAsWritten(history, r.value.index)
    ensures r.Some? && !showVolume ==> r.value.volume == NoVolume
  {
    if dates == [] then None
    else
      var idx := Clamp(x, |dates|);
      Some(Readout(idx, LabelText(Label(interval, window, history, dates[idx])),
                   if showVolume then VolumeAsWritten(history, idx) else NoVolume))
  }
}
