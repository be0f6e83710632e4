/**
 * The chart application object: the `csv` cache directory the download worker and the
 * start-up sweep delete files from, the queue the worker posts to, and `StockChartApp`'s
 * own state — the ticker entry, the window, the raw and regrouped bars, the metadata of
 * the last download, and what the chart and the volume profile show.
 */
module App {
  import opened Wrappers
  import opened Calendar
  import opened Text
  import opened Bars
  import opened Resampling
  import opened WindowPolicy
  import opened Indicators
  import opened Display
  import opened DataCache
  import opened VolumeProfile
  import opened Cursor

  /** The `csv` directory: file name to contents and modification time. */
  class CacheDir {
    var files: Directory

    constructor (files: Directory)
      ensures this.files == files
    {
      this.files := files;
    }

    /** `df.to_csv(cache_file)`: creates or replaces one file. */
    method Write(name: string, file: CacheFile)
      modifies this
      ensures files == old(files)[name := file]
    {
      files := files[name := file];
    }

    /** The loop over `glob(f"{ticker}_{interval}_*.csv")` after a store: unlinks every
      * matching file except `keep`. */
    method RemoveOthers(prefix: string, keep: string)
      modifies this
      ensures files == Pruned(old(files), prefix, keep)
    {
      ghost var start := files;
      var todo := set f | f in files && MatchesGlob(f, prefix);
      while todo != {}
        invariant todo <= start.Keys
        invariant forall f :: f in todo ==> MatchesGlob(f, prefix)
        invariant files == map f | f in start && (f in todo || f == keep || !MatchesGlob(f, prefix)) :: start[f]
        decreases |todo|
      {
        var f :| f in todo;
        if f != keep {
          files := files - {f};
        }
        todo := todo - {f};
      }
    }

    /** `_cleanup_old_cache`: unlinks every `*.csv` file whose modification time lies more
      * than seven days before `now`, and returns how many it unlinked. */
    method CleanupOldCache(now: Instant) returns (count: nat)
      modifies this
      ensures files == Swept(old(files), now)
      ensures count == |StaleNames(old(files), now)|
    {
      ghost var start := files;
      ghost var deleted: set<string> := {};
      var todo := set f | f in files && IsCsvName(f);
      count := 0;
      while todo != {}
        invariant todo <= start.Keys
        invariant forall f :: f in todo ==> IsCsvName(f)
        invariant deleted == set f | f in start && f !in todo && Stale(f, start[f], now)
        invariant files == map f | f in start && f !in deleted :: start[f]
        invariant count == |deleted|
        decreases |todo|
      {
        var f :| f in todo;
        if files[f].mtime < now - RetentionSeconds {
          files := files - {f};
          deleted := deleted + {f};
          count := count + 1;
        }
        todo := todo - {f};
      }
      assert deleted == StaleNames(start, now);
    }
  }

  /** `queue.Queue` as the two threads use it: the worker puts, the UI polls. */
  class MessageQueue {
    var items: seq<Message>

    constructor ()
      ensures items == []
    {
      items := [];
    }

    method Put(m: Message)
      modifies this
      ensures items == old(items) + [m]
    {
      items := items + [m];
    }

    /** `get_nowait()`: the oldest message, or None where it raises `queue.Empty`. */
    method GetNowait() returns (m: Option<Message>)
      modifies this
      ensures old(items) == [] ==> m == None && items == []
      ensures old(items) != [] ==> m == Some(old(items)[0]) && items == old(items)[1..]
    {
      if items == [] {
        m := None;
      } else {
        m := Some(items[0]);
        items := items[1..];
      }
    }
  }

  /** The state `_process_queue` sets from a data message. */
  datatype Loaded = Loaded(raw: seq<Bar>, interval: string, company: Option<InfoValue>,
                           previousClose: InfoValue, currentPrice: InfoValue,
                           info: map<string, InfoValue>)

  /** Whether `_process_queue` takes a message's data: a data message with bars. */
  predicate Applies(m: Message) {
    m.DataMsg? && m.bars != []
  }

  /** One message: its data replaces the loaded state; an error or an empty data message
    * only raises a dialog. */
  function Receive(s: Loaded, m: Message): (r: Loaded)
    ensures !Applies(m) ==> r == s
    ensures Applies(m) ==> r.raw == m.bars && r.raw != [] && r.interval == m.interval && r.info == m.info
  {
    if Applies(m) then Loaded(m.bars, m.interval, Some(m.company), m.previousClose, m.currentPrice, m.info)
    else s
  }

  /** The messages applied in queue order. */
  function Drain(s: Loaded, ms: seq<Message>): (r: Loaded)
    ensures r == s || exists i :: 0 <= i < |ms| && Applies(ms[i]) && r == Receive(s, ms[i])
    decreases |ms|
  {
    if ms == [] then s
    else
      var r := Drain(Receive(s, ms[0]), ms[1..]);
      assert forall i :: 0 <= i < |ms| - 1 ==> ms[1..][i] == ms[i + 1];
      r
  }

  /** The last message in `ms` that carries bars. */
  function LastApplied(ms: seq<Message>): (r: Option<Message>)
    ensures r.Some? ==> Applies(r.value) && r.value in ms
    ensures r.None? <==> forall i :: 0 <= i < |ms| ==> !Applies(ms[i])
    decreases |ms|
  {
    if ms == [] then None
    else if Applies(ms[|ms| - 1]) then Some(ms[|ms| - 1])
    else
      var r := LastApplied(ms[..|ms| - 1]);
      assert forall i :: 0 <= i < |ms| - 1 ==> ms[..|ms| - 1][i] == ms[i];
      r
  }

  /** One more message is the last applied one exactly when it applies. */
  lemma LastAppliedSnoc(ms: seq<Message>, m: Message)
    ensures LastApplied(ms + [m]) == if Applies(m) then Some(m) else LastApplied(ms)
  {
    assert (ms + [m])[..|ms|] == ms;
  }

  /** Draining one more message is receiving it after the others. */
  lemma {:induction false} DrainSnoc(s: Loaded, ms: seq<Message>, m: Message)
    ensures Drain(s, ms + [m]) == Receive(Drain(s, ms), m)
    decreases |ms|
  {
    if ms != [] {
      assert (ms + [m])[1..] == ms[1..] + [m];
      DrainSnoc(Receive(s, ms[0]), ms[1..], m);
    }
  }

  /** Draining in two polls is draining once. */
  lemma {:induction false} DrainConcat(s: Loaded, a: seq<Message>, b: seq<Message>)
    ensures Drain(s, a + b) == Drain(Drain(s, a), b)
    decreases |a|
  {
    if a == [] {
      assert a + b == b;
    } else {
      assert (a + b)[1..] == a[1..] + b;
      DrainConcat(Receive(s, a[0]), a[1..], b);
    }
  }

  /** After a drain the state is that of the last message with bars; errors and empty
    * data messages leave it as it was, whatever their number and order. */
  lemma {:induction false} DrainKeepsLast(s: Loaded, ms: seq<Message>)
    ensures LastApplied(ms).None? ==> Drain(s, ms) == s
    ensures LastApplied(ms).Some? ==> Drain(s, ms) == Receive(s, LastApplied(ms).value)
    decreases |ms|
  {
    if ms != [] {
      var init := ms[..|ms| - 1];
      var m := ms[|ms| - 1];
      assert ms == init + [m];
      DrainSnoc(s, init, m);
      DrainKeepsLast(s, init);
    }
  }

  /** What `_apply_resampling` and `_calculate_indicators` make of the raw bars: the bars
    * regrouped by the rule, with the moving-average columns. */
  function Regrouped(raw: seq<Bar>, rule: Option<string>, calendar: (seq<Bar>, string) -> seq<Bar>): (r: seq<Bar>)
    requires PolicyRule(rule)
    ensures rule.None? ==> Times(r) == Times(raw)
  {
    PolicyRuleIsSafe(rule);
    MovingAveragesKeepTimes(raw);
    WithMovingAverages(Resample(raw, rule, calendar).bars)
  }

  /** The history each window's rule produces: trading-day groups of two and three bars
    * for 2Y and 3Y, calendar periods for 10Y, 5Y and 1WK, the raw bars otherwise; always
    * with the moving averages. */
  lemma RegroupedByWindow(raw: seq<Bar>, window: string, daysIntoYear: nat, calendar: (seq<Bar>, string) -> seq<Bar>)
    ensures var rule := IntervalSettings(window, daysIntoYear).rule;
      PolicyRule(rule)
      && (window == "2Y" ==> Regrouped(raw, rule, calendar) == WithMovingAverages(CountResample(raw, 2)))
      && (window == "3Y" ==> Regrouped(raw, rule, calendar) == WithMovingAverages(CountResample(raw, 3)))
      && (window == "10Y" ==> Regrouped(raw, rule, calendar) == WithMovingAverages(calendar(raw, "1ME")))
      && (window == "5Y" ==> Regrouped(raw, rule, calendar) == WithMovingAverages(calendar(raw, "1W")))
      && (window == "1WK" ==> Regrouped(raw, rule, calendar) == WithMovingAverages(calendar(raw, "10min")))
      && (window !in ["10Y", "5Y", "3Y", "2Y", "1WK"] ==> Regrouped(raw, rule, calendar) == WithMovingAverages(raw))
  {
    var rule := IntervalSettings(window, daysIntoYear).rule;
    PolicyProducesPolicyRules(window, daysIntoYear);
    PolicyRuleIsSafe(rule);
    if window == "2Y" {
      assert NatText(2) == "2";
      assert NatText(2) + "D" == "2D";
      assert rule == Some("2D");
      CountRuleShape(raw, 2, calendar);
    } else if window == "3Y" {
      assert NatText(3) == "3";
      assert NatText(3) + "D" == "3D";
      assert rule == Some("3D");
      CountRuleShape(raw, 3, calendar);
    } else if window == "10Y" {
      assert !EndsWithD("1ME");
    }
  }

  /** The earliest of the chart's timestamps, `df.index.min()`. */
  function Earliest(dates: seq<Instant>): (t: Instant)
    requires |dates| > 0
    ensures t in dates
    ensures forall i :: 0 <= i < |dates| ==> t <= dates[i]
    decreases |dates|
  {
    if |dates| == 1 then dates[0]
    else
      var rest := Earliest(dates[1..]);
      assert forall i :: 1 <= i < |dates| ==> dates[i] == dates[1..][i - 1];
      if dates[0] <= rest then dates[0] else rest
  }

  /** The volume profile `update_chart` draws over a chart: built from the raw bars from
    * the chart's first timestamp on. */
  function ProfileFor(raw: seq<Bar>, c: Chart, mode: string): (p: Profile)
    requires |c.dates| > 0
    ensures p.Histogram? ==> |p.volumes| == BinCount(mode)
    ensures p.NoProfile? ==> exists b :: b in raw && b.time >= Earliest(c.dates)
  {
    ProfileOf(KeepFrom(raw, Earliest(c.dates)), mode)
  }

  /** The widget variables the user sets, and the ticker and the rule of the last fetch. */
  datatype Controls = Controls(entry: string, timeWindow: string, autoRefresh: bool, showVolume: bool,
                               showVp: bool, vpMode: string, currentTicker: string,
                               currentRule: Option<string>)

  /** What the app has derived from the loaded data: the regrouped history, the chart and
    * the volume profile. */
  datatype Shown = Shown(history: seq<Bar>, chart: Chart, profile: Option<Profile>)

  /** `_plot_volume_profile` over the raw bars from the chart's first timestamp on. */
  method DrawnProfile(raw: seq<Bar>, c: Chart, mode: string) returns (p: Profile)
    requires |c.dates| > 0
    ensures p == ProfileFor(raw, c, mode)
  {
    p := BuildProfile(KeepFrom(raw, Earliest(c.dates)), mode);
  }

  /** The start-up ticker needs no clean-up, and the 1Y window asks for daily bars
    * without a rule. */
  lemma StartupPlan(daysIntoYear: nat)
    ensures Strip(Upper("SPY")) == "SPY"
    ensures IntervalSettings("1Y", daysIntoYear) == Settings("1d", None)
  {
    assert Upper("SPY") == "SPY";
    assert DropLeadingSpace("SPY") == "SPY";
  }

  /** A fetch for the worker thread to run. */
  datatype Job = Job(ticker: string, interval: string)

  class ChartApp {
    // Widget variables the user sets.
    var entry: string
    var timeWindow: string
    var autoRefresh: bool
    var showVolume: bool
    var showVp: bool
    var vpMode: string
    // The data.
    var currentTicker: string
    var currentRule: Option<string>
    var rawBars: seq<Bar>
    var currentInterval: string
    var companyName: Option<InfoValue>
    var previousClose: InfoValue
    var currentPrice: InfoValue
    var stockInfo: map<string, InfoValue>
    var historyBars: seq<Bar>
    // What is on screen.
    var displayed: Chart
    var profile: Option<Profile>

    const cache: CacheDir
    const queue: MessageQueue
    /** pandas' `resample(rule).agg(...).dropna()`. */
    const calendar: (seq<Bar>, string) -> seq<Bar>

    /** The resample rule is always one the window policy produces, the history is only
      * ever derived from non-empty raw bars, and every drawn row sits at its timestamp. */
    predicate Valid()
      reads this
    {
      PolicyRule(currentRule)
      && (historyBars != [] ==> rawBars != [])
      && Aligned(displayed)
    }

    function Session(): Loaded
      reads this
    {
      Loaded(rawBars, currentInterval, companyName, previousClose, currentPrice, stockInfo)
    }

    function ControlState(): Controls
      reads this
    {
      Controls(entry, timeWindow, autoRefresh, showVolume, showVp, vpMode, currentTicker, currentRule)
    }

    function ShownState(): Shown
      reads this
    {
      Shown(historyBars, displayed, profile)
    }

    /** The chart and the profile match the history, wherever the history has something
      * to draw in the current window. */
    predicate Current()
      reads this
    {
      match ChartView(historyBars, timeWindow)
      case None => true
      case Some(c) => displayed == c && profile == (if showVp then Some(ProfileFor(rawBars, c, vpMode)) else None)
    }

    /** The state `__init__` sets up before its first fetch. */
    constructor (cache: CacheDir, queue: MessageQueue, calendar: (seq<Bar>, string) -> seq<Bar>)
      ensures Valid() && this.cache == cache && this.queue == queue && this.calendar == calendar
      ensures entry == "SPY" && timeWindow == "1Y" && currentInterval == "1d" && currentRule == None
      ensures rawBars == [] && historyBars == [] && currentTicker == ""
      ensures autoRefresh && showVolume && showVp && vpMode == "100 Bins"
      ensures previousClose == Number(0.0) && currentPrice == Number(0.0) && companyName == None
    {
      this.cache := cache;
      this.queue := queue;
      this.calendar := calendar;
      entry := "SPY";
      timeWindow := "1Y";
      autoRefresh := true;
      showVolume := true;
      showVp := true;
      vpMode := "100 Bins";
      currentTicker := "";
      currentRule := None;
      rawBars := [];
      currentInterval := "1d";
      companyName := None;
      previousClose := Number(0.0);
      currentPrice := Number(0.0);
      stockInfo := map[];
      historyBars := [];
      displayed := Chart([], []);
      profile := None;
    }

    /** `fetch_data`: the upper-cased, stripped entry names the ticker; nothing happens
      * when it is empty. Without an interval the window's settings give both the interval
      * and the rule. */
    method FetchData(interval: Option<string>, daysIntoYear: nat) returns (job: Option<Job>)
      requires Valid()
      modifies this
      ensures Valid()
      ensures var ticker := Strip(Upper(old(entry)));
        (ticker == [] ==> job == None && currentTicker == old(currentTicker) && currentRule == old(currentRule))
        && (ticker != [] ==> job.Some? && job.value.ticker == ticker && currentTicker == ticker)
      ensures job.Some? && interval.Some? ==> job.value.interval == interval.value && currentRule == old(currentRule)
      ensures job.Some? && interval.None? ==>
        IntervalSettings(timeWindow, daysIntoYear) == Settings(job.value.interval, currentRule)
      ensures Session() == old(Session()) && ShownState() == old(ShownState())
      ensures ControlState() == old(ControlState()).(currentTicker := currentTicker, currentRule := currentRule)
    {
      var ticker := Strip(Upper(entry));
      if ticker == [] {
        return None;
      }
      var target: string;
      match interval {
        case Some(i) =>
          target := i;
        case None =>
          var settings := IntervalSettings(timeWindow, daysIntoYear);
          PolicyProducesPolicyRules(timeWindow, daysIntoYear);
          target := settings.interval;
          currentRule := settings.rule;
      }
      currentTicker := ticker;
      job := Some(Job(ticker, target));
    }

    /** `_update_crosshair`'s data: the readout for cursor position `x` over the chart
      * as drawn, with the volume label read from the history at the screen position. */
    function Crosshair(x: int): (r: Option<Readout>)
      reads this
      requires Valid()
      ensures r.None? <==> displayed.dates == []
      ensures r.Some? ==> r.value.index < |displayed.rows|
      ensures r.Some? ==> r.value.text == LabelText(Label(currentInterval, timeWindow, historyBars, displayed.dates[r.value.index]))
      ensures r.Some? && showVolume && r.value.index < |historyBars| ==>
        r.value.volume == ShowsVolume(historyBars[r.value.index].volume)
      ensures r.Some? && showVolume && r.value.index >= |historyBars| ==> r.value.volume == IndexError
      ensures r.Some? && !showVolume ==> r.value.volume == NoVolume
    {
      CursorReadout(x, displayed.dates, currentInterval, timeWindow, historyBars, showVolume)
    }

    /** `update_chart`: redraws the chart and the volume profile from the history, or
      * leaves the screen as it is when the window holds no bars. */
    method UpdateChart()
      requires Valid()
      modifies this
      ensures Valid() && Current()
      ensures ChartView(historyBars, timeWindow).None? ==> displayed == old(displayed) && profile == old(profile)
      ensures Session() == old(Session()) && historyBars == old(historyBars)
      ensures ControlState() == old(ControlState())
    {
      var view := ChartView(historyBars, timeWindow);
      if view.None? {
        return;
      }
      Redraw(view.value);
    }

    /** Draws chart `c` of the history, with the volume profile when it is switched on. */
    method Redraw(c: Chart)
      requires Valid() && Aligned(c) && |c.dates| > 0 && historyBars != []
      modifies this
      ensures Valid() && displayed == c
      ensures profile == if showVp then Some(ProfileFor(rawBars, c, vpMode)) else None
      ensures Session() == old(Session()) && historyBars == old(historyBars)
      ensures ControlState() == old(ControlState())
    {
      var p: Option<Profile> := None;
      if showVp {
        if rawBars != [] {
          var vp := DrawnProfile(rawBars, c, vpMode);
          p := Some(vp);
        } else {
          assert false;
        }
      }
      displayed, profile := c, p;
    }

    /** `_apply_resampling`: regroups the raw bars by the current rule, adds the moving
      * averages and redraws; nothing happens before the first bars arrive. */
    method ApplyResampling()
      requires Valid()
      modifies this
      ensures Valid()
      ensures old(rawBars) == [] ==> ShownState() == old(ShownState())
      ensures old(rawBars) != [] ==> historyBars == Regrouped(rawBars, currentRule, calendar) && Current()
      ensures old(rawBars) != [] && ChartView(historyBars, timeWindow).None? ==>
        displayed == old(displayed) && profile == old(profile)
      ensures Session() == old(Session())
      ensures ControlState() == old(ControlState())
    {
      if rawBars == [] {
        return;
      }
      PolicyRuleIsSafe(currentRule);
      var outcome := Resample(rawBars, currentRule, calendar);
      match outcome
      case ZeroGroupSize =>
        assert false;
      case Resampled(bars) =>
        historyBars := WithMovingAverages(bars);
        UpdateChart();
    }

    /** `on_window_change`: takes the new window's rule, then downloads again if its
      * interval differs from the data on hand, or else regroups what is there. */
    method OnWindowChange(window: string, daysIntoYear: nat) returns (job: Option<Job>)
      requires Valid()
      modifies this
      ensures Valid()
      ensures timeWindow == window && currentRule == IntervalSettings(window, daysIntoYear).rule
      ensures Session() == old(Session())
      ensures NeedsRefetch(window, daysIntoYear, old(currentInterval)) ==>
        ShownState() == old(ShownState())
        && ControlState() == old(ControlState()).(timeWindow := window, currentRule := currentRule,
                                                  currentTicker := currentTicker)
        && (job.Some? <==> Strip(Upper(old(entry))) != [])
        && (job.Some? ==> job.value == Job(Strip(Upper(old(entry))), IntervalSettings(window, daysIntoYear).interval)
                          && currentTicker == Strip(Upper(old(entry))))
        && (job.None? ==> currentTicker == old(currentTicker))
      ensures !NeedsRefetch(window, daysIntoYear, old(currentInterval)) ==>
        job == None
        && ControlState() == old(ControlState()).(timeWindow := window, currentRule := currentRule)
        && (rawBars == [] ==> ShownState() == old(ShownState()))
        && (rawBars != [] ==> historyBars == Regrouped(rawBars, currentRule, calendar) && Current())
    {
      timeWindow := window;
      var settings := IntervalSettings(window, daysIntoYear);
      PolicyProducesPolicyRules(window, daysIntoYear);
      currentRule := settings.rule;
      if settings.interval != currentInterval {
        job := FetchData(Some(settings.interval), daysIntoYear);
      } else {
        ApplyResampling();
        job := None;
      }
    }

    /** One tick of `_auto_refresh_loop`: a silent fetch of the entry's ticker when the
      * toggle is on, a ticker has been loaded and the 1D window is shown. The fetch takes
      * the 1D window's settings: one-minute bars and no rule. */
    method AutoRefreshTick(daysIntoYear: nat) returns (job: Option<Job>)
      requires Valid()
      modifies this
      ensures Valid()
      ensures Session() == old(Session()) && ShownState() == old(ShownState())
      ensures !ShouldAutoRefresh(old(autoRefresh), old(currentTicker), old(timeWindow)) || Strip(Upper(old(entry))) == [] ==>
        job == None && ControlState() == old(ControlState())
      ensures ShouldAutoRefresh(old(autoRefresh), old(currentTicker), old(timeWindow)) && Strip(Upper(old(entry))) != [] ==>
        job == Some(Job(Strip(Upper(old(entry))), "1m"))
        && ControlState() == old(ControlState()).(currentTicker := Strip(Upper(old(entry))), currentRule := None)
    {
      if autoRefresh && currentTicker != "" && timeWindow == "1D" {
        AutoRefreshFetchesMinuteBars(autoRefresh, currentTicker, timeWindow, daysIntoYear);
        job := FetchData(None, daysIntoYear);
      } else {
        job := None;
      }
    }

    /** `_download_worker(ticker, interval)` at local instant `now`: reads or refreshes
      * the cache and posts one message. */
    method DownloadWorker(ticker: string, interval: string, now: Instant,
                          download: Request -> ProviderReply, meta: MetadataReply)
      modifies cache, queue
      ensures cache.files == Worker(old(cache.files), ticker, interval, now, download, meta).files
      ensures queue.items == old(queue.items) + [Worker(old(cache.files), ticker, interval, now, download, meta).message]
    {
      var src := Obtain(cache.files, ticker, interval, now, download);
      StoreDownload(ticker, interval, now, src);
      queue.Put(Posted(ticker, interval, src, meta));
    }

    /** The worker's cache write: a non-empty download of anything but one-minute bars
      * becomes today's file, and the pair's other files are unlinked. */
    method StoreDownload(ticker: string, interval: string, now: Instant, src: Source)
      modifies cache
      ensures cache.files == Stored(old(cache.files), ticker, interval, now, src)
    {
      if src.FromProvider? && src.bars != [] && interval != "1m" {
        var name := CacheFileName(ticker, interval, EffectiveDay(DayOf(now)));
        cache.Write(name, Written(src.bars, now));
        cache.RemoveOthers(CachePrefix(ticker, interval), name);
      }
    }

    /** One message taken off the queue. */
    method Handle(m: Message)
      requires Valid()
      modifies this
      ensures Valid()
      ensures Session() == Receive(old(Session()), m)
      ensures !Applies(m) ==> ShownState() == old(ShownState())
      ensures Applies(m) ==> historyBars == Regrouped(rawBars, currentRule, calendar) && Current()
      ensures ControlState() == old(ControlState())
    {
      if m.DataMsg? && m.bars != [] {
        Take(m);
        ApplyResampling();
      }
    }

    /** The assignments `_process_queue` makes from a data message with bars. */
    method Take(m: Message)
      requires Valid() && Applies(m)
      modifies this
      ensures Valid() && Session() == Receive(old(Session()), m)
      ensures ShownState() == old(ShownState()) && ControlState() == old(ControlState())
    {
      TakeBars(m);
      TakeQuote(m);
    }

    /** The bars, their interval and the company name from a data message. */
    method TakeBars(m: Message)
      requires Valid() && Applies(m)
      modifies this
      ensures Valid() && rawBars == m.bars && currentInterval == m.interval && companyName == Some(m.company)
      ensures previousClose == old(previousClose) && currentPrice == old(currentPrice) && stockInfo == old(stockInfo)
      ensures ShownState() == old(ShownState()) && ControlState() == old(ControlState())
    {
      rawBars, currentInterval, companyName := m.bars, m.interval, Some(m.company);
    }

    /** The quote and the metadata from a data message. */
    method TakeQuote(m: Message)
      requires Valid() && m.DataMsg?
      modifies this
      ensures Valid() && previousClose == m.previousClose && currentPrice == m.currentPrice && stockInfo == m.info
      ensures rawBars == old(rawBars) && currentInterval == old(currentInterval) && companyName == old(companyName)
      ensures ShownState() == old(ShownState()) && ControlState() == old(ControlState())
    {
      previousClose, currentPrice, stockInfo := m.previousClose, m.currentPrice, m.info;
    }

    /** `_process_queue`: takes every waiting message in order. The loaded state ends as
      * the last message with bars left it, and the chart shows that state. */
    method ProcessQueue()
      requires Valid()
      modifies this, queue
      ensures Valid()
      ensures queue.items == []
      ensures Session() == Drain(old(Session()), old(queue.items))
      ensures LastApplied(old(queue.items)).None? ==>
        ShownState() == old(ShownState())
      ensures LastApplied(old(queue.items)).Some? ==>
        historyBars == Regrouped(rawBars, currentRule, calendar) && Current()
      ensures ControlState() == old(ControlState())
    {
      ghost var pending := queue.items;
      ghost var start := Session();
      ghost var done: seq<Message> := [];
      ghost var shown, controls := ShownState(), ControlState();
      var m := queue.GetNowait();
      while m.Some?
        invariant m.Some? ==> done + [m.value] + queue.items == pending
        invariant m.None? ==> done == pending && queue.items == []
        invariant Drained(start, done, shown) && ControlState() == controls
        decreases |queue.items|, m.Some?
      {
        HandleNext(m.value, start, done, shown);
        done := done + [m.value];
        m := queue.GetNowait();
      }
    }

    /** What handling the messages `done` in order leaves behind, starting from the
      * loaded state `start` and the shown state `shown`. */
    predicate Drained(start: Loaded, done: seq<Message>, shown: Shown)
      reads this
    {
      Valid()
      && Session() == Drain(start, done)
      && (LastApplied(done).None? ==> ShownState() == shown)
      && (LastApplied(done).Some? ==> historyBars == Regrouped(rawBars, currentRule, calendar) && Current())
    }

    /** One turn of `_process_queue`'s loop. */
    method HandleNext(m: Message, ghost start: Loaded, ghost done: seq<Message>, ghost shown: Shown)
      requires Drained(start, done, shown)
      modifies this
      ensures Drained(start, done + [m], shown)
      ensures ControlState() == old(ControlState())
    {
      Handle(m);
      DrainSnoc(start, done, m);
      LastAppliedSnoc(done, m);
    }

    /** `__init__`'s last steps: the first fetch (of "SPY" at the 1Y window, daily bars
      * without a rule) and the start-up sweep of the cache. */
    method Startup(daysIntoYear: nat, now: Instant) returns (job: Option<Job>, swept: nat)
      requires Valid() && entry == "SPY" && timeWindow == "1Y"
      modifies this, cache
      ensures Valid()
      ensures job == Some(Job("SPY", "1d"))
      ensures Session() == old(Session()) && ShownState() == old(ShownState())
      ensures ControlState() == old(ControlState()).(currentTicker := "SPY", currentRule := None)
      ensures cache.files == Swept(old(cache.files), now)
      ensures swept == |StaleNames(old(cache.files), now)|
    {
      StartupPlan(daysIntoYear);
      job := FetchData(None, daysIntoYear);
      swept := cache.CleanupOldCache(now);
    }
  }
}
